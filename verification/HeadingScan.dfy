/** Line scans for headings: section boundaries, sub-headings and breadcrumbs by offset. */
module HeadingScan {
  import opened Numbers
  import opened Text
  import opened Lexicons
  import opened Lines
  import opened Hierarchy

  // ---- one global scan, as the reference ------------------------------------

  /** Line n is preceded by an odd number of fence lines. */
  predicate Fenced(ls: seq<string>, n: nat)
    requires n <= |ls|
  {
    n > 0 && Fenced(ls, n - 1) != IsFence(ls[n - 1])
  }

  /** The level of the heading on line i, or 0: fence lines and fenced lines are no headings. */
  function LevelAt(ls: seq<string>, i: nat): nat
    requires i < |ls|
  {
    if IsFence(ls[i]) || Fenced(ls, i) then 0 else HeadingLevel(ls[i])
  }

  /** The heading on line i, if it is deeper than `above`. */
  function HeadingOn(lex: Lexicon, ls: seq<string>, above: nat, i: nat): (r: seq<Heading>)
    requires i < |ls|
    ensures ValidHistory(r)
  {
    if LevelAt(ls, i) > above then [Heading(LevelAt(ls, i), lex.headingText(ls[i]))] else []
  }

  /** The headings of lines [0, n) deeper than `above`, in order. */
  function History(lex: Lexicon, ls: seq<string>, above: nat, n: nat): (r: seq<Heading>)
    requires n <= |ls|
    ensures ValidHistory(r)
  {
    if n == 0 then []
    else History(lex, ls, above, n - 1) + HeadingOn(lex, ls, above, n - 1)
  }

  /** The breadcrumb in force at an offset, by one scan over all headings outside fences up to it. */
  function GlobalCrumb(lex: Lexicon, text: string, off: int): string {
    var ls := Split(text);
    Crumb(StackAfter(EMPTY_STACK, History(lex, ls, 0, LinesUpTo(ls, off))), 6)
  }

  // ---- what the global breadcrumb lists -------------------------------------

  /** A heading on line j is in force before line n: no later one up to there is of the same or a shallower level. */
  predicate HeadingInForce(ls: seq<string>, n: nat, j: int)
    requires n <= |ls|
  {
    && 0 <= j < n && LevelAt(ls, j) > 0
    && forall k :: j < k < n && LevelAt(ls, k) > 0 ==> LevelAt(ls, k) > LevelAt(ls, j)
  }

  /** entry is the text of the heading of the given level in force before line n, or empty when there is none. */
  ghost predicate EntryOf(lex: Lexicon, ls: seq<string>, n: nat, level: nat, entry: string)
    requires n <= |ls|
  {
    && (forall j :: HeadingInForce(ls, n, j) && LevelAt(ls, j) == level ==> entry == lex.headingText(ls[j]))
    && (entry != "" ==> exists j :: HeadingInForce(ls, n, j) && LevelAt(ls, j) == level)
  }

  lemma {:induction false} EntryInForce(lex: Lexicon, ls: seq<string>, n: nat, level: nat)
    requires n <= |ls| && 1 <= level <= 6
    ensures EntryOf(lex, ls, n, level, StackAfter(EMPTY_STACK, History(lex, ls, 0, n))[level - 1])
  {
    hide LevelAt, StackAfter, History, EntryOf;
    if n == 0 {
      NothingInForce(lex, ls, level);
    } else {
      EntryInForce(lex, ls, n - 1, level);
      NextEntry(lex, ls, n - 1, level);
      EntryNext(lex, ls, n - 1, level, StackAfter(EMPTY_STACK, History(lex, ls, 0, n - 1))[level - 1]);
    }
  }

  lemma NothingInForce(lex: Lexicon, ls: seq<string>, level: nat)
    requires 1 <= level <= 6
    ensures EntryOf(lex, ls, 0, level, StackAfter(EMPTY_STACK, History(lex, ls, 0, 0))[level - 1])
  {
    hide LevelAt;
  }

  lemma EntryNext(lex: Lexicon, ls: seq<string>, n: nat, level: nat, entry: string)
    requires n < |ls| && 1 <= level <= 6 && EntryOf(lex, ls, n, level, entry)
    ensures var h := LevelAt(ls, n);
            EntryOf(lex, ls, n + 1, level, if h == 0 || level < h then entry else if level == h then lex.headingText(ls[n]) else "")
  {
    forall j ensures HeadingInForce(ls, n + 1, j) <==>
                       if j == n then LevelAt(ls, j) > 0
                       else HeadingInForce(ls, n, j) && (LevelAt(ls, n) > 0 ==> LevelAt(ls, n) > LevelAt(ls, j))
    {
      StaysInForce(ls, n, j);
    }
    hide HeadingInForce, LevelAt;
    if LevelAt(ls, n) == level {
      assert HeadingInForce(ls, n + 1, n);
      forall j | HeadingInForce(ls, n + 1, j) && LevelAt(ls, j) == level ensures j == n {
      }
    }
  }

  lemma StaysInForce(ls: seq<string>, n: nat, j: int)
    requires n < |ls|
    ensures HeadingInForce(ls, n + 1, j) <==>
              if j == n then LevelAt(ls, j) > 0
              else HeadingInForce(ls, n, j) && (LevelAt(ls, n) > 0 ==> LevelAt(ls, n) > LevelAt(ls, j))
  {
    hide LevelAt;
  }

  lemma NextEntry(lex: Lexicon, ls: seq<string>, n: nat, level: nat)
    requires n < |ls| && 1 <= level <= 6
    ensures var h := LevelAt(ls, n);
            StackAfter(EMPTY_STACK, History(lex, ls, 0, n + 1))[level - 1]
            == if h == 0 || level < h then StackAfter(EMPTY_STACK, History(lex, ls, 0, n))[level - 1]
               else if level == h then lex.headingText(ls[n]) else ""
  {
    assert LevelAt(ls, n) <= 6;
    hide LevelAt, Observed, History, StackAfter;
    SubStackNext(lex, ls, 0, EMPTY_STACK, n);
    if LevelAt(ls, n) > 0 {
      ObservedAt(StackAfter(EMPTY_STACK, History(lex, ls, 0, n)), Heading(LevelAt(ls, n), lex.headingText(ls[n])), level - 1);
    }
  }

  /** The lines of the given headings as a breadcrumb shows them. */
  function HeadingLines(lex: Lexicon, ls: seq<string>, at: seq<nat>): seq<string>
    requires forall i :: 0 <= i < |at| ==> at[i] < |ls|
  {
    seq(|at|, i requires 0 <= i < |at| => CrumbLine(LevelAt(ls, at[i]), lex.headingText(ls[at[i]])))
  }

  /** The headings with a text that are in force before line n, in order. */
  ghost predicate AllInForce(lex: Lexicon, ls: seq<string>, n: nat, at: seq<nat>)
    requires n <= |ls|
  {
    && (forall i, j :: 0 <= i < j < |at| ==> at[i] < at[j])
    && (forall i :: 0 <= i < |at| ==> HeadingInForce(ls, n, at[i]) && lex.headingText(ls[at[i]]) != "")
    && (forall j: nat :: HeadingInForce(ls, n, j) && lex.headingText(ls[j]) != "" ==> j in at)
  }

  /** One line per active level becomes one line per heading in force. */
  lemma {:induction false} LinesInForce(lex: Lexicon, ls: seq<string>, n: nat, stack: Stack, levels: seq<nat>, k: nat) returns (at: seq<nat>)
    requires n <= |ls| && stack == StackAfter(EMPTY_STACK, History(lex, ls, 0, n))
    requires ActiveLevels(stack, 6, levels) && k <= |levels|
    ensures |at| == k && forall i :: 0 <= i < k ==>
              HeadingInForce(ls, n, at[i]) && LevelAt(ls, at[i]) == levels[i] && stack[levels[i] - 1] == lex.headingText(ls[at[i]])
  {
    hide LevelAt, History, StackAfter;
    if k == 0 {
      at := [];
    } else {
      at := LinesInForce(lex, ls, n, stack, levels, k - 1);
      var l := levels[k - 1];
      EntryInForce(lex, ls, n, l);
      var j: nat :| HeadingInForce(ls, n, j) && LevelAt(ls, j) == l;
      at := at + [j];
    }
  }

  /** The breadcrumb in force at an offset lists exactly the headings in force there, outermost first. */
  lemma GlobalCrumbLines(lex: Lexicon, text: string, off: int) returns (at: seq<nat>)
    ensures AllInForce(lex, Split(text), LinesUpTo(Split(text), off), at)
    ensures GlobalCrumb(lex, text, off) == Join(HeadingLines(lex, Split(text), at))
    ensures lex.Valid() && at != [] ==> Split(GlobalCrumb(lex, text, off)) == HeadingLines(lex, Split(text), at)
  {
    hide Split, LevelAt, LinesUpTo, History, StackAfter, Crumb, Join;
    var ls := Split(text);
    var n := LinesUpTo(ls, off);
    var stack := StackAfter(EMPTY_STACK, History(lex, ls, 0, n));
    var levels := CrumbLists(stack, 6);
    at := LinesInForce(lex, ls, n, stack, levels, |levels|);
    InForceOrder(lex, ls, n, stack, levels, at);
    assert HeadingLines(lex, ls, at) == CrumbLines(stack, levels);
    if lex.Valid() && at != [] {
      HeadingsAreLines(lex, ls, at);
      SplitJoin(HeadingLines(lex, ls, at));
    }
  }

  lemma HeadingsAreLines(lex: Lexicon, ls: seq<string>, at: seq<nat>)
    requires lex.Valid() && AllLines(ls) && at != [] && forall i :: 0 <= i < |at| ==> at[i] < |ls|
    ensures AllLines(HeadingLines(lex, ls, at))
  {
    hide LevelAt;
    forall i | 0 <= i < |at| ensures NoNewline(HeadingLines(lex, ls, at)[i]) {
      assert NoNewline(lex.headingText(ls[at[i]]));
    }
  }

  lemma InForceOrder(lex: Lexicon, ls: seq<string>, n: nat, stack: Stack, levels: seq<nat>, at: seq<nat>)
    requires n <= |ls| && stack == StackAfter(EMPTY_STACK, History(lex, ls, 0, n)) && ActiveLevels(stack, 6, levels) && |at| == |levels|
    requires forall i :: 0 <= i < |at| ==>
               HeadingInForce(ls, n, at[i]) && LevelAt(ls, at[i]) == levels[i] && stack[levels[i] - 1] == lex.headingText(ls[at[i]])
    ensures AllInForce(lex, ls, n, at)
  {
    hide History, StackAfter;
    forall j: nat | HeadingInForce(ls, n, j) && lex.headingText(ls[j]) != "" ensures j in at {
      var l := LevelAt(ls, j);
      assert l <= 6;
      EntryInForce(lex, ls, n, l);
      assert l in levels;
      var i :| 0 <= i < |levels| && levels[i] == l;
      SameLevel(ls, n, j, at[i]);
    }
    hide LevelAt;
    forall i, j | 0 <= i < j < |at| ensures at[i] < at[j] {
      assert levels[i] < levels[j];
      DeeperIsLater(ls, n, at[i], at[j]);
    }
  }

  lemma DeeperIsLater(ls: seq<string>, n: nat, i: int, j: int)
    requires n <= |ls| && HeadingInForce(ls, n, i) && HeadingInForce(ls, n, j) && LevelAt(ls, i) < LevelAt(ls, j)
    ensures i < j
  {
    hide LevelAt;
  }

  lemma SameLevel(ls: seq<string>, n: nat, i: int, j: int)
    requires n <= |ls| && HeadingInForce(ls, n, i) && HeadingInForce(ls, n, j) && LevelAt(ls, i) == LevelAt(ls, j)
    ensures i == j
  {
    hide LevelAt;
  }

  predicate IsPrimary(ls: seq<string>, primary: nat, i: nat)
    requires i < |ls|
  {
    1 <= LevelAt(ls, i) <= primary
  }

  // ---- findHeadingBoundaries ------------------------------------------------

  /** A section start; line is its heading, or "" for a document that opens without one. */
  datatype HeadingBoundary = HeadingBoundary(runeStart: nat, line: string)

  /** bounds are the document's start and every later primary heading, at lines idx. */
  predicate BoundsAre(ls: seq<string>, primary: nat, n: nat, bounds: seq<HeadingBoundary>, idx: seq<nat>) {
    && 0 < |bounds| == |idx| && idx[0] == 0 && n <= |ls|
    && (forall k :: 0 <= k < |idx| ==> idx[k] < |ls| && bounds[k].runeStart == LineStart(ls, idx[k]))
    && (forall k, l :: 0 <= k < l < |idx| ==> idx[k] < idx[l])
    && (forall k :: 0 < k < |idx| ==> idx[k] < n && IsPrimary(ls, primary, idx[k]) && bounds[k].line == ls[idx[k]])
    && (bounds[0].line == if 0 < n && IsPrimary(ls, primary, 0) then ls[0] else "")
    && (forall j :: 0 < j < n && IsPrimary(ls, primary, j) ==> j in idx)
  }

  /** Offset at which the loop stands before line i: its start, or the text's end. */
  function LinePos(ls: seq<string>, i: nat): int
    requires i <= |ls|
  {
    if i < |ls| then LineStart(ls, i) else LineStart(ls, |ls|) - 1
  }

  lemma LinePosNext(ls: seq<string>, i: nat)
    requires i < |ls|
    ensures LinePos(ls, i + 1) == LinePos(ls, i) + |ls[i]| + (if i < |ls| - 1 then 1 else 0)
    ensures LinePos(ls, i) >= i && (LinePos(ls, i) > 0 <==> i > 0)
  {
    LineStartMonotone(ls, 0, i);
  }

  /** What one line adds to the boundaries. */
  function WithBoundary(bounds: seq<HeadingBoundary>, pos: nat, line: string): seq<HeadingBoundary>
    requires bounds != []
  {
    if pos > 0 then bounds + [HeadingBoundary(pos, line)] else [HeadingBoundary(0, line)] + bounds[1..]
  }

  lemma BoundariesNext(ls: seq<string>, primary: nat, i: nat, bounds: seq<HeadingBoundary>, idx: seq<nat>)
    requires BoundsAre(ls, primary, i, bounds, idx) && i < |ls|
    ensures !IsPrimary(ls, primary, i) ==> BoundsAre(ls, primary, i + 1, bounds, idx)
    ensures IsPrimary(ls, primary, i) ==>
              BoundsAre(ls, primary, i + 1, WithBoundary(bounds, LineStart(ls, i), ls[i]), if i > 0 then idx + [i] else idx)
  {
    hide LevelAt, BoundsAre;
    if IsPrimary(ls, primary, i) {
      BoundaryAt(ls, primary, i, bounds, idx);
    } else {
      NoBoundaryAt(ls, primary, i, bounds, idx);
    }
  }

  lemma NoBoundaryAt(ls: seq<string>, primary: nat, i: nat, bounds: seq<HeadingBoundary>, idx: seq<nat>)
    requires BoundsAre(ls, primary, i, bounds, idx) && i < |ls| && !IsPrimary(ls, primary, i)
    ensures BoundsAre(ls, primary, i + 1, bounds, idx)
  {
    hide LevelAt, LineStart;
  }

  lemma BoundaryAt(ls: seq<string>, primary: nat, i: nat, bounds: seq<HeadingBoundary>, idx: seq<nat>)
    requires BoundsAre(ls, primary, i, bounds, idx) && i < |ls| && IsPrimary(ls, primary, i)
    ensures BoundsAre(ls, primary, i + 1, WithBoundary(bounds, LineStart(ls, i), ls[i]), if i > 0 then idx + [i] else idx)
  {
    hide BoundsAre, LevelAt;
    LinePosNext(ls, i);
    if i == 0 {
      OpeningBoundary(ls, primary, bounds, idx);
    } else {
      LaterBoundary(ls, primary, i, bounds, idx);
    }
  }

  lemma OpeningBoundary(ls: seq<string>, primary: nat, bounds: seq<HeadingBoundary>, idx: seq<nat>)
    requires ls != [] && IsPrimary(ls, primary, 0) && BoundsAre(ls, primary, 0, bounds, idx)
    ensures |bounds| > 0 && BoundsAre(ls, primary, 1, [HeadingBoundary(0, ls[0])] + bounds[1..], idx)
  {
    hide IsPrimary;
    SecondBelow(idx, 0);
    assert |idx| == 1;
  }

  lemma SecondBelow(idx: seq<nat>, n: nat)
    requires forall k :: 0 < k < |idx| ==> idx[k] < n
    ensures |idx| > 1 ==> idx[1] < n
  {
  }

  lemma LaterBoundary(ls: seq<string>, primary: nat, i: nat, bounds: seq<HeadingBoundary>, idx: seq<nat>)
    requires 0 < i < |ls| && IsPrimary(ls, primary, i) && BoundsAre(ls, primary, i, bounds, idx)
    ensures BoundsAre(ls, primary, i + 1, bounds + [HeadingBoundary(LineStart(ls, i), ls[i])], idx + [i])
  {
    hide IsPrimary, LineStart;
    var idx' := idx + [i];
    assert forall j :: j in idx || j == i ==> j in idx';
  }

  method FindBoundaries(text: string, primary: nat) returns (bounds: seq<HeadingBoundary>, ghost idx: seq<nat>)
    requires primary >= 1
    ensures BoundsAre(Split(text), primary, |Split(text)|, bounds, idx)
  {
    hide BoundsAre, IsFence, HeadingLevel, LineStart, Split;
    var ls := Split(text);
    bounds, idx := [HeadingBoundary(0, "")], [0];
    var pos, inFence := 0, false;
    NoBoundary(ls, primary);
    for i := 0 to |ls|
      invariant pos == LinePos(ls, i) && inFence == Fenced(ls, i)
      invariant BoundsAre(ls, primary, i, bounds, idx) && bounds != []
    {
      BoundariesNext(ls, primary, i, bounds, idx);
      LinePosNext(ls, i);
      if IsFence(ls[i]) {
        inFence := !inFence;
      } else if !inFence {
        var level := HeadingLevel(ls[i]);
        if level >= 1 && level <= primary {
          bounds := WithBoundary(bounds, pos, ls[i]);
          if i > 0 {
            idx := idx + [i];
          }
        }
      }
      pos := pos + |ls[i]|;
      if i < |ls| - 1 {
        pos := pos + 1;
      }
    }
  }

  lemma NoBoundary(ls: seq<string>, primary: nat)
    requires ls != []
    ensures BoundsAre(ls, primary, 0, [HeadingBoundary(0, "")], [0]) && LinePos(ls, 0) == 0
  {
  }

  // ---- scans inside a section -----------------------------------------------

  /** The stack after the sub-headings of the first n section lines. */
  function SubStack(lex: Lexicon, ls: seq<string>, primary: nat, seed: Stack, n: nat): Stack
    requires n <= |ls|
  {
    StackAfter(seed, History(lex, ls, primary, n))
  }

  lemma SubStackNext(lex: Lexicon, ls: seq<string>, primary: nat, seed: Stack, i: nat)
    requires i < |ls|
    ensures SubStack(lex, ls, primary, seed, 0) == seed
    ensures SubStack(lex, ls, primary, seed, i + 1)
            == if LevelAt(ls, i) > primary
               then Observed(SubStack(lex, ls, primary, seed, i), Heading(LevelAt(ls, i), lex.headingText(ls[i])))
               else SubStack(lex, ls, primary, seed, i)
  {
    hide Observed, LevelAt;
    var a, b := History(lex, ls, primary, i), History(lex, ls, primary, i + 1);
    if LevelAt(ls, i) > primary {
      assert b[..|b| - 1] == a;
    } else {
      assert b == a;
    }
  }

  /** observeSubHeadings: feeds every heading deeper than primary into the hierarchy. */
  method ObserveSubHeadings(lex: Lexicon, runes: string, primary: nat, h: HeadingHierarchy)
    requires h.Valid()
    modifies h
    ensures h.Valid()
    ensures h.stack == SubStack(lex, Split(runes), primary, old(h.stack), |Split(runes)|)
  {
    hide SubStack, IsFence, HeadingLevel, Observed, Split;
    var ls := Split(runes);
    var inFence := false;
    SubStackNext(lex, ls, primary, h.stack, 0);
    for i := 0 to |ls|
      invariant h.Valid() && inFence == Fenced(ls, i)
      invariant h.stack == SubStack(lex, ls, primary, old(h.stack), i)
    {
      SubStackNext(lex, ls, primary, old(h.stack), i);
      if IsFence(ls[i]) {
        inFence := !inFence;
        continue;
      }
      if inFence {
        continue;
      }
      if HeadingLevel(ls[i]) > primary {
        var level := h.Observe(lex, ls[i]);
      }
    }
  }

  /** A breadcrumb and the offset it takes effect at. */
  datatype SectionCrumb = SectionCrumb(runeStart: nat, crumb: string)

  /** breadcrumbAtOffset: the last entry that starts by off. */
  function AtOffset(crumbs: seq<SectionCrumb>, off: int, fallback: string): string {
    if crumbs == [] || crumbs[0].runeStart > off then fallback
    else AtOffset(crumbs[1..], off, crumbs[0].crumb)
  }

  lemma {:induction false} AtOffsetSnoc(crumbs: seq<SectionCrumb>, e: SectionCrumb, off: int, fallback: string)
    requires forall i :: 0 <= i < |crumbs| ==> crumbs[i].runeStart <= e.runeStart
    ensures AtOffset(crumbs + [e], off, fallback) == if e.runeStart <= off then e.crumb else AtOffset(crumbs, off, fallback)
  {
    if crumbs == [] {
      assert (crumbs + [e])[1..] == [];
    } else {
      assert (crumbs + [e])[1..] == crumbs[1..] + [e];
      AtOffsetSnoc(crumbs[1..], e, off, crumbs[0].crumb);
    }
  }

  lemma LinesUpToAt(ls: seq<string>, off: int, i: nat)
    requires i < |ls| && off >= 0
    ensures LinesUpTo(ls, off) > i <==> LineStart(ls, i) <= off
  {
    LinesUpToSpec(ls, off);
    var n := LinesUpTo(ls, off);
    if n > i {
      LineStartMonotone(ls, i, n - 1);
    } else {
      LineStartMonotone(ls, n, i);
    }
  }

  /** The breadcrumb of a seed after the sub-headings of the first n section lines. */
  function SubCrumb(lex: Lexicon, ls: seq<string>, primary: nat, seed: Stack, n: nat): string
    requires n <= |ls|
  {
    Crumb(SubStack(lex, ls, primary, seed, n), 6)
  }

  /** crumbs resolve every offset to the breadcrumb after the lines that start by it, capped at i. */
  ghost predicate CrumbsUpTo(lex: Lexicon, ls: seq<string>, primary: nat, seed: Stack, i: nat, crumbs: seq<SectionCrumb>)
    requires i <= |ls|
  {
    forall off: nat, fallback: string {:trigger AtOffset(crumbs, off, fallback)} ::
      AtOffset(crumbs, off, fallback) == SubCrumb(lex, ls, primary, seed, Min(i, LinesUpTo(ls, off)))
  }

  /** sectionBreadcrumbs: the breadcrumb at every offset of the section. */
  method SectionBreadcrumbs(lex: Lexicon, runes: string, primary: nat, seed: HeadingHierarchy) returns (result: seq<SectionCrumb>)
    requires seed.Valid()
    ensures CrumbsUpTo(lex, Split(runes), primary, seed.stack, |Split(runes)|, result)
  {
    hide SubStack, IsFence, HeadingLevel, Observed, Split, CrumbsUpTo, LineStart, Crumb;
    var ls := Split(runes);
    var h := new HeadingHierarchy.Copy(seed);
    var first := h.BreadcrumbWithHashes();
    result := [SectionCrumb(0, first)];
    var pos, inFence := 0, false;
    SubStackNext(lex, ls, primary, seed.stack, 0);
    FirstCrumb(lex, ls, primary, seed.stack, first);
    for i := 0 to |ls|
      invariant pos == LinePos(ls, i) && inFence == Fenced(ls, i)
      invariant h.Valid() && fresh(h) && h.stack == SubStack(lex, ls, primary, seed.stack, i)
      invariant StartsBy(result, LineStart(ls, i)) && CrumbsUpTo(lex, ls, primary, seed.stack, i, result)
    {
      SubStackNext(lex, ls, primary, seed.stack, i);
      CrumbsStep(lex, ls, primary, seed.stack, i, result);
      LinePosNext(ls, i);
      if IsFence(ls[i]) {
        inFence := !inFence;
      } else if !inFence && HeadingLevel(ls[i]) > primary {
        var level := h.Observe(lex, ls[i]);
        var crumb := h.BreadcrumbWithHashes();
        result := result + [SectionCrumb(pos, crumb)];
      }
      pos := pos + |ls[i]|;
      if i < |ls| - 1 {
        pos := pos + 1;
      }
      LineStartMonotone(ls, i, i + 1);
    }
  }

  predicate StartsBy(crumbs: seq<SectionCrumb>, off: int) {
    forall k :: 0 <= k < |crumbs| ==> crumbs[k].runeStart <= off
  }

  lemma FirstCrumb(lex: Lexicon, ls: seq<string>, primary: nat, seed: Stack, first: string)
    requires ls != [] && first == Crumb(seed, 6)
    ensures CrumbsUpTo(lex, ls, primary, seed, 0, [SectionCrumb(0, first)])
    ensures LineStart(ls, 0) == 0 == LinePos(ls, 0)
  {
    hide Crumb, SubStack, LevelAt, LinesUpTo, Observed;
    var crumbs := [SectionCrumb(0, first)];
    assert crumbs[1..] == [];
    SubStackNext(lex, ls, primary, seed, 0);
    forall off: nat, fallback: string
      ensures AtOffset(crumbs, off, fallback) == SubCrumb(lex, ls, primary, seed, Min(0, LinesUpTo(ls, off)))
    {
      assert AtOffset(crumbs[1..], off, first) == first;
    }
  }

  lemma CrumbsStep(lex: Lexicon, ls: seq<string>, primary: nat, seed: Stack, i: nat, was: seq<SectionCrumb>)
    requires i < |ls| && CrumbsUpTo(lex, ls, primary, seed, i, was) && StartsBy(was, LineStart(ls, i))
    ensures CrumbsUpTo(lex, ls, primary, seed, i + 1,
                       if LevelAt(ls, i) > primary
                       then was + [SectionCrumb(LineStart(ls, i), SubCrumb(lex, ls, primary, seed, i + 1))]
                       else was)
  {
    hide AtOffset, Crumb, SubStack, LevelAt, LineStart, LinesUpTo, Observed;
    SubStackNext(lex, ls, primary, seed, i);
    var e := SectionCrumb(LineStart(ls, i), SubCrumb(lex, ls, primary, seed, i + 1));
    forall off: nat, fallback: string
      ensures AtOffset(was, off, fallback) == SubCrumb(lex, ls, primary, seed, Min(i, LinesUpTo(ls, off)))
      ensures AtOffset(was + [e], off, fallback) == if e.runeStart <= off then e.crumb else AtOffset(was, off, fallback)
      ensures LinesUpTo(ls, off) > i <==> e.runeStart <= off
    {
      LinesUpToAt(ls, off, i);
      AtOffsetSnoc(was, e, off, fallback);
    }
  }

  // ---- sections refine the global scan --------------------------------------

  /** sec is lines a..b of ls, possibly followed by an empty line. */
  predicate SectionLines(ls: seq<string>, a: nat, b: nat, sec: seq<string>) {
    a < b <= |ls| && (sec == ls[a..b] || sec == ls[a..b] + [""])
  }

  /** A section starts outside fences and has no primary heading after its first line. */
  predicate IsSection(ls: seq<string>, primary: nat, a: nat, b: nat) {
    && a < b <= |ls| && !Fenced(ls, a)
    && forall j :: a < j < b ==> !IsPrimary(ls, primary, j)
  }

  lemma {:induction false} SectionFences(ls: seq<string>, a: nat, b: nat, sec: seq<string>, n: nat)
    requires SectionLines(ls, a, b, sec) && !Fenced(ls, a) && n <= b - a
    ensures Fenced(sec, n) == Fenced(ls, a + n)
    ensures n < b - a ==> sec[n] == ls[a + n] && LevelAt(sec, n) == LevelAt(ls, a + n)
  {
    if n == 0 {
    } else {
      SectionFences(ls, a, b, sec, n - 1);
    }
  }

  /** The primary heading a section opens with, if it does. */
  function Opening(lex: Lexicon, ls: seq<string>, primary: nat, a: nat): (r: seq<Heading>)
    requires a < |ls|
    ensures ValidHistory(r)
  {
    if IsPrimary(ls, primary, a) then [Heading(LevelAt(ls, a), lex.headingText(ls[a]))] else []
  }

  lemma SectionHeading(lex: Lexicon, ls: seq<string>, primary: nat, a: nat, b: nat, sec: seq<string>, n: nat)
    requires SectionLines(ls, a, b, sec) && IsSection(ls, primary, a, b) && n < b - a
    ensures HeadingOn(lex, ls, 0, a + n) == (if n == 0 then Opening(lex, ls, primary, a) else []) + HeadingOn(lex, sec, primary, n)
  {
    hide LevelAt;
    SectionFences(ls, a, b, sec, n);
    if n > 0 {
      assert !IsPrimary(ls, primary, a + n);
    }
  }

  /** The global history inside a section: what came before, its opening, its sub-headings. */
  lemma {:induction false} SectionHistory(lex: Lexicon, ls: seq<string>, primary: nat, a: nat, b: nat, sec: seq<string>, n: nat)
    requires SectionLines(ls, a, b, sec) && IsSection(ls, primary, a, b) && 1 <= n <= b - a
    ensures History(lex, ls, 0, a + n) == History(lex, ls, 0, a) + Opening(lex, ls, primary, a) + History(lex, sec, primary, n)
  {
    hide HeadingOn, Opening, IsSection;
    SectionHeading(lex, ls, primary, a, b, sec, n - 1);
    if n > 1 {
      SectionHistory(lex, ls, primary, a, b, sec, n - 1);
    } else {
      assert History(lex, sec, primary, 0) == [];
    }
  }

  /** The empty line a section may end with is no heading. */
  lemma SectionHistoryWhole(lex: Lexicon, ls: seq<string>, primary: nat, a: nat, b: nat, sec: seq<string>)
    requires SectionLines(ls, a, b, sec)
    ensures History(lex, sec, primary, |sec|) == History(lex, sec, primary, b - a)
  {
    if |sec| > b - a {
      assert sec[b - a] == "" && HeadingOn(lex, sec, primary, b - a) == [];
      hide HeadingOn;
    }
  }
}
