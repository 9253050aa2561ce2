/** When a merged chunk is closed, what is carried out of it, and where a table header is put in front. */
module MergeLaws {
  import opened Numbers
  import opened Text
  import opened Chunks
  import opened Lexicons
  import opened ProtectedSpans
  import opened Units
  import opened Overlap
  import opened Merge
  import HeaderTrackers

  /** What is pending before unit i. */
  function Pending(src: string, s: MergeState): string
    requires InText(src, s)
  {
    s.header + src[s.from..s.pos]
  }

  /** The header that unit i calls for, unless it is wider than a chunk. */
  function Wanted(lex: Lexicon, units: seq<SplitUnit>, chunkSize: int, i: nat): string
    requires i < |units|
  {
    var h := lex.Header(TextsOf(units[..i + 1])).headers;
    if |h| > chunkSize then "" else h
  }

  /** A row ended the table with unit i. */
  predicate TableEnds(lex: Lexicon, units: seq<SplitUnit>, i: nat)
    requires i < |units|
  {
    lex.Header(TextsOf(units[..i + 1])).ended
  }

  /**
   * What is pending stays open for unit i: no table ends there, there is room for the unit and
   * the header it calls for, and the hard ceiling is not exceeded.
   */
  predicate StaysOpen(lex: Lexicon, units: seq<SplitUnit>, chunkSize: int, pending: string, i: nat)
    requires i < |units|
  {
    var n := |units[i].text|;
    && !TableEnds(lex, units, i) && n <= 7500 && |pending| + n <= 7500
    && (pending == "" || |pending| + n + |Wanted(lex, units, chunkSize, i)| <= chunkSize)
  }

  /**
   * A pending text is closed, and becomes a chunk unless it is blank, only when it has to be;
   * nothing of it is carried over the end of a table.
   */
  lemma ClosedExactly(lex: Lexicon, src: string, units: seq<SplitUnit>, chunkSize: int, chunkOverlap: int, run: seq<MergeState>, i: nat)
    requires lex.Valid() && MergeRun(lex, src, units, chunkSize, chunkOverlap, run) && i + 1 < |run|
    ensures var s, s' := run[i], run[i + 1];
            var pending := Pending(src, s);
            if StaysOpen(lex, units, chunkSize, pending, i) then s' == s.(pos := units[i].end)
            else s.chunks <= s'.chunks && (!Blank(pending) ==> |s'.chunks| > |s.chunks| && s'.chunks[|s.chunks|].content == pending)
    ensures TableEnds(lex, units, i) && |units[i].text| <= ABSOLUTE_MAX ==> run[i + 1].header == "" && run[i + 1].from == run[i].pos
  {
    var s, u, view := run[i], units[i], lex.Header(TextsOf(units[..i + 1]));
    assert StepRel(lex, src, units, chunkSize, chunkOverlap, s, u, view, run[i + 1]);
    hide MergeRun, TextsOf;
    if |u.text| <= ABSOLUTE_MAX {
      var s2 := RoomOf(lex, src, units, chunkSize, chunkOverlap, s, u, view, run[i + 1]);
      hide StepRel;
      RoomCloses(lex, src, units, chunkSize, chunkOverlap, s, u, view, s2, run[i + 1]);
    }
  }

  lemma RoomCloses(lex: Lexicon, src: string, units: seq<SplitUnit>, chunkSize: int, chunkOverlap: int, s: MergeState, u: SplitUnit, view: HeaderView,
                   s2: MergeState, s': MergeState)
    requires lex.Valid() && InText(src, s) && InText(src, s2)
    requires var s1 := if view.ended then Emptied(src, s) else s;
             RoomRel(lex, src, units, chunkSize, chunkOverlap, s1, u, if |view.headers| > chunkSize then "" else view.headers, s2)
    requires s' == (if s2.Len() + |u.text| > ABSOLUTE_MAX then Emptied(src, s2) else s2).(pos := u.end)
    ensures var pending, h := Pending(src, s), if |view.headers| > chunkSize then "" else view.headers;
            if !view.ended && |pending| + |u.text| <= ABSOLUTE_MAX && (pending == "" || |pending| + |u.text| + |h| <= chunkSize)
            then s' == s.(pos := u.end)
            else s.chunks <= s'.chunks && (!Blank(pending) ==> |s'.chunks| > |s.chunks| && s'.chunks[|s.chunks|].content == pending)
    ensures view.ended && |u.text| <= ABSOLUTE_MAX ==> s'.header == "" && s'.from == s.pos
  {
    hide OverlapStart, Shrunk, HeaderTrackers.TablePatterns.Redundant, Blank;
  }

  /** The header is there already, whole or by its column names, or unit u belongs to a table of another width. */
  predicate Present(lex: Lexicon, h: string, carried: string, u: string) {
    var row, cols, n := lex.tables.columnRow(h), lex.tables.headerColumns(h), lex.tables.rowColumns(u);
    || HeaderTrackers.Contains(carried, h) || HeaderTrackers.Contains(u, h)
    || (row != "" && (HeaderTrackers.Contains(carried, row) || HeaderTrackers.Contains(u, row)))
    || (cols > 0 && n > 0 && cols != n)
  }

  /** A boundary after which the overlap may start: not inside a protected region, and with text behind it that fits the room. */
  predicate MayStart(t: string, spans: seq<Span>, room: int, c: Boundary) {
    && IsBoundary(t, c) && 0 <= c.start < c.end < |t| && |t| - c.end <= room && !Blank(t[c.end..])
    && forall i :: 0 <= i < |spans| ==> !(spans[i].start < c.start < spans[i].end)
  }

  /** best is the boundary of the best kind, and of those the first; none where there is none. */
  ghost predicate Best(t: string, spans: seq<Span>, room: int, best: Option<Boundary>) {
    && (best.Some? ==> MayStart(t, spans, room, best.value))
    && forall c :: MayStart(t, spans, room, c) ==>
         best.Some? && (best.value.priority < c.priority || (best.value.priority == c.priority && best.value.start <= c.start))
  }

  lemma BestIs(t: string, spans: seq<Span>, room: int, best: Option<Boundary>)
    requires room > 0 && BestOf(t, spans, Max(0, |t| - room), Boundaries(t), best)
    ensures Best(t, spans, room, best)
  {
    hide IsBoundary, Blank;
    forall c: Boundary ensures MayStart(t, spans, room, c) <==> c in Boundaries(t) && Eligible(t, spans, Max(0, |t| - room), c) {
    }
  }

  /**
   * The overlap: of the last runes of the closed text, as many as the overlap or the next unit
   * allows, what follows the best boundary; nothing where there is none.
   */
  ghost predicate Overlaps(lex: Lexicon, src: string, from: int, pos: int, room: int, best: Option<Boundary>, start: int)
    requires lex.Valid() && 0 <= from <= pos <= |src|
  {
    if room <= 0 || from == pos then start == pos
    else
      var w := Max(from, pos - room - 4);
      var t := src[w..pos];
      && Best(t, ProtectedRunes(lex, t), room, best)
      && start == if best.Some? then w + best.value.end else pos
  }

  /**
   * When the pending text, the next unit and its header are too long for one chunk: the next
   * chunk starts with the overlap of the closed one. An active header that fits beside the unit is put in front
   * exactly when it is not there already; units of the overlap are dropped one by one only to make room for it.
   */
  lemma CarriedExactly(lex: Lexicon, src: string, units: seq<SplitUnit>, chunkSize: int, chunkOverlap: int, run: seq<MergeState>, i: nat)
    returns (next: MergeState, start: int, best: Option<Boundary>)
    requires lex.Valid() && MergeRun(lex, src, units, chunkSize, chunkOverlap, run) && i + 1 < |run|
    requires var pending := Pending(src, run[i]);
             && !TableEnds(lex, units, i) && |units[i].text| <= ABSOLUTE_MAX && pending != ""
             && |pending| + |units[i].text| + |Wanted(lex, units, chunkSize, i)| > chunkSize
    ensures var s, u, h := run[i], units[i].text, Wanted(lex, units, chunkSize, i);
            && Overlaps(lex, src, s.from, s.pos, Min(chunkOverlap, chunkSize - |u|), best, start)
            && next.pos == s.pos && 0 <= next.from <= next.pos
            && (if h != "" && |h| + |u| <= chunkSize then
                  && Shrunk(units, start, s.pos, chunkSize - |u| - |h|, next.from)
                  && next.header == if Present(lex, h, src[next.from..s.pos], u) then "" else h
                else next.from == start && next.header == "")
    ensures next.Len() + |units[i].text| <= ABSOLUTE_MAX ==> run[i + 1] == next.(pos := units[i].end)
    ensures next.Len() + |units[i].text| > ABSOLUTE_MAX ==> run[i + 1].header == "" && run[i + 1].from == next.pos
  {
    var s, u, view := run[i], units[i], lex.Header(TextsOf(units[..i + 1]));
    assert StepRel(lex, src, units, chunkSize, chunkOverlap, s, u, view, run[i + 1]);
    hide MergeRun, TextsOf;
    next := RoomOf(lex, src, units, chunkSize, chunkOverlap, s, u, view, run[i + 1]);
    hide StepRel;
    start, best := OverlapOf(lex, src, s.from, s.pos, OverlapBudget(chunkOverlap, chunkSize, |u.text|));
    PresentIsRedundant(lex, Wanted(lex, units, chunkSize, i), src[next.from..s.pos], u.text);
    OverflowLeaves(lex, src, units, chunkSize, chunkOverlap, s, u, Wanted(lex, units, chunkSize, i), start, next);
  }

  lemma PresentIsRedundant(lex: Lexicon, h: string, carried: string, u: string)
    ensures lex.tables.Redundant(h, carried, u) <==> Present(lex, h, carried, u)
  {
    hide HeaderTrackers.Contains;
  }

  lemma OverflowLeaves(lex: Lexicon, src: string, units: seq<SplitUnit>, chunkSize: int, chunkOverlap: int, s: MergeState, u: SplitUnit, h: string,
                       start: int, next: MergeState)
    requires lex.Valid() && InText(src, s) && InText(src, next) && OverflowRel(lex, src, units, chunkSize, chunkOverlap, s, u, h, next)
    requires var overlap := OverlapStart(lex, src, s.from, s.pos, OverlapBudget(chunkOverlap, chunkSize, |u.text|));
             start == if overlap.Some? then overlap.value else s.pos
    ensures next.pos == s.pos
    ensures if h != "" && |h| + |u.text| <= chunkSize then
              && Shrunk(units, start, s.pos, chunkSize - |u.text| - |h|, next.from)
              && next.header == (if lex.tables.Redundant(h, src[next.from..s.pos], u.text) then "" else h)
            else next.from == start && next.header == ""
  {
    hide OverlapStart, Shrunk, HeaderTrackers.TablePatterns.Redundant, Emit;
  }

  lemma OverlapOf(lex: Lexicon, src: string, from: int, pos: int, budget: int) returns (start: int, best: Option<Boundary>)
    requires lex.Valid() && 0 <= from <= pos <= |src|
    ensures Overlaps(lex, src, from, pos, budget, best, start)
    ensures var overlap := OverlapStart(lex, src, from, pos, budget);
            start == if overlap.Some? then overlap.value else pos
  {
    hide BestCut, BestOf, Best, ProtectedRunes, IsBoundary;
    start, best := pos, None;
    if budget > 0 && from < pos {
      var w := WindowStart(from, pos, budget);
      best := BestCutExactly(lex, src[w..pos], Max(0, (pos - w) - budget));
      BestIs(src[w..pos], ProtectedRunes(lex, src[w..pos]), budget, best);
      OverlapStartIs(lex, src, from, pos, budget);
      if best.Some? {
        start := w + best.value.end;
      }
    }
  }
}
