/** Semantic overlap: which suffix of the flushed units is carried into the next chunk. */
module Overlap {
  import opened Numbers
  import opened Text
  import opened Chunks
  import opened Lexicons
  import opened ProtectedSpans

  // ---- the boundaries of a text, declaratively ------------------------------

  datatype Boundary = Boundary(start: int, end: int, priority: int)

  predicate DoubleCrLf(t: string, i: int) {
    0 <= i && i + 3 < |t| && t[i] == '\r' && t[i + 1] == '\n' && t[i + 2] == '\r' && t[i + 3] == '\n'
  }

  predicate DoubleLf(t: string, i: int) {
    0 <= i && i + 1 < |t| && t[i] == '\n' && t[i + 1] == '\n'
  }

  /** The paragraph breaks a left-to-right scan from rune i meets, never overlapping. */
  function Paragraphs(t: string, i: nat): seq<Span>
    decreases |t| - i
  {
    if i >= |t| then []
    else if DoubleCrLf(t, i) then [Span(i, i + 4)] + Paragraphs(t, i + 4)
    else if DoubleLf(t, i) then [Span(i, i + 2)] + Paragraphs(t, i + 2)
    else Paragraphs(t, i + 1)
  }

  predicate Within(spans: seq<Span>, k: int) {
    exists s :: s in spans && s.start <= k < s.end
  }

  predicate InParagraph(t: string, k: int) {
    Within(Paragraphs(t, 0), k)
  }

  /** A "\r\n" that is not part of a paragraph break. */
  predicate LineCrLf(t: string, i: int) {
    0 <= i && i + 1 < |t| && t[i] == '\r' && t[i + 1] == '\n' && !InParagraph(t, i) && !InParagraph(t, i + 1)
  }

  predicate LineBreak(t: string, start: int, end: int) {
    0 <= start < end <= |t| &&
    ((end == start + 2 && LineCrLf(t, start)) ||
     (end == start + 1 && t[start] == '\n' && !InParagraph(t, start) && !LineCrLf(t, start - 1)))
  }

  predicate SentenceEnd(t: string, start: int, end: int) {
    0 <= start < end <= |t| &&
    ((end == start + 1 && (t[start] == '。' || t[start] == '？' || t[start] == '！')) ||
     (end == start + 2 && (t[start] == '.' || t[start] == '?' || t[start] == '!') && t[start + 1] == ' '))
  }

  /** Priority 1 paragraph breaks, 2 line breaks, 3 sentence ends. */
  predicate IsBoundary(t: string, c: Boundary) {
    || (c.priority == 1 && Span(c.start, c.end) in Paragraphs(t, 0))
    || (c.priority == 2 && LineBreak(t, c.start, c.end))
    || (c.priority == 3 && SentenceEnd(t, c.start, c.end))
  }

  /** Ends inside the overlap budget, outside protected content, with text after it. */
  predicate Eligible(t: string, spans: seq<Span>, minEnd: int, c: Boundary) {
    0 <= c.start < c.end < |t| && c.end >= minEnd && !Inside(spans, c.start) && !Blank(t[c.end..])
  }

  /** c wins over d: lower priority number, then earlier position. */
  predicate Beats(c: Boundary, d: Boundary) {
    c.priority < d.priority || (c.priority == d.priority && c.start <= d.start)
  }

  /** best is the winner among the eligible boundaries of `seen`. */
  ghost predicate BestOf(t: string, spans: seq<Span>, minEnd: int, seen: iset<Boundary>, best: Option<Boundary>) {
    match best
    case None => forall c :: c in seen ==> !Eligible(t, spans, minEnd, c)
    case Some(b) =>
      b in seen && Eligible(t, spans, minEnd, b)
      && forall c :: c in seen && Eligible(t, spans, minEnd, c) ==> Beats(b, c)
  }

  ghost function Boundaries(t: string): iset<Boundary> {
    iset c: Boundary | IsBoundary(t, c)
  }

  /** The end of the winning boundary, if any boundary is eligible. */
  ghost function BestCut(lex: Lexicon, t: string, minEnd: int): Option<int>
    requires lex.Valid()
  {
    if exists b :: BestOf(t, ProtectedRunes(lex, t), minEnd, Boundaries(t), Some(b)) then
      var b :| BestOf(t, ProtectedRunes(lex, t), minEnd, Boundaries(t), Some(b));
      Some(b.end)
    else None
  }

  lemma {:induction false} ParagraphEnd(t: string, i: nat, s: Span)
    requires s in Paragraphs(t, i)
    ensures s.end == s.start + (if DoubleCrLf(t, s.start) then 4 else 2)
    decreases |t| - i
  {
    if DoubleCrLf(t, i) {
      if s != Span(i, i + 4) { ParagraphEnd(t, i + 4, s); }
    } else if DoubleLf(t, i) {
      if s != Span(i, i + 2) { ParagraphEnd(t, i + 2, s); }
    } else {
      ParagraphEnd(t, i + 1, s);
    }
  }

  /** Priority and position determine a boundary, so the winner is unique. */
  lemma WinnerUnique(t: string, b: Boundary, c: Boundary)
    requires IsBoundary(t, b) && IsBoundary(t, c) && b.priority == c.priority && b.start == c.start
    ensures b == c
  {
    if b.priority == 1 {
      ParagraphEnd(t, 0, Span(b.start, b.end));
      ParagraphEnd(t, 0, Span(c.start, c.end));
    }
  }

  lemma BestCutIs(lex: Lexicon, t: string, minEnd: int, best: Option<Boundary>)
    requires lex.Valid() && BestOf(t, ProtectedRunes(lex, t), minEnd, Boundaries(t), best)
    ensures BestCut(lex, t, minEnd) == if best.None? then None else Some(best.value.end)
  {
    var spans := ProtectedRunes(lex, t);
    forall b | BestOf(t, spans, minEnd, Boundaries(t), Some(b)) ensures best == Some(b) {
      assert b in Boundaries(t);
      if best.Some? {
        WinnerUnique(t, b, best.value);
      }
    }
  }

  /** Among eligible boundaries there is always a winner. */
  lemma {:induction false} WinnerExists(t: string, spans: seq<Span>, minEnd: int, c: Boundary) returns (b: Boundary)
    requires IsBoundary(t, c) && Eligible(t, spans, minEnd, c)
    ensures BestOf(t, spans, minEnd, Boundaries(t), Some(b))
    decreases c.priority, c.start
  {
    hide IsBoundary, Eligible;
    if d: Boundary :| IsBoundary(t, d) && Eligible(t, spans, minEnd, d) && !Beats(c, d) {
      BoundaryStarts(t, spans, minEnd, d);
      b := WinnerExists(t, spans, minEnd, d);
    } else {
      b := c;
      assert forall d: Boundary :: d in Boundaries(t) ==> IsBoundary(t, d);
    }
  }

  lemma BoundaryStarts(t: string, spans: seq<Span>, minEnd: int, c: Boundary)
    requires IsBoundary(t, c) && Eligible(t, spans, minEnd, c)
    ensures c.start >= 0 && c.priority > 0
  {
  }

  /** The cut is the end of the winning boundary; there is none only where no boundary is eligible. */
  lemma BestCutExactly(lex: Lexicon, t: string, minEnd: int) returns (best: Option<Boundary>)
    requires lex.Valid()
    ensures BestOf(t, ProtectedRunes(lex, t), minEnd, Boundaries(t), best)
    ensures BestCut(lex, t, minEnd) == if best.None? then None else Some(best.value.end)
  {
    hide IsBoundary, Eligible;
    var spans := ProtectedRunes(lex, t);
    if c: Boundary :| IsBoundary(t, c) && Eligible(t, spans, minEnd, c) {
      var b := WinnerExists(t, spans, minEnd, c);
      best := Some(b);
    } else {
      best := None;
    }
    BestCutIs(lex, t, minEnd, best);
  }

  // ---- the three scans ------------------------------------------------------

  /** The `consider` closure. */
  method Consider(t: string, spans: seq<Span>, minEnd: int, best: Option<Boundary>, c: Boundary, ghost seen: iset<Boundary>)
    returns (best': Option<Boundary>)
    requires BestOf(t, spans, minEnd, seen, best)
    ensures BestOf(t, spans, minEnd, seen + iset{c}, best')
  {
    best' := best;
    if Eligible(t, spans, minEnd, c) {
      if best.None? || c.priority < best.value.priority ||
         (c.priority == best.value.priority && c.start < best.value.start)
      {
        best' := Some(c);
      }
    }
  }

  lemma BestOfSame(t: string, spans: seq<Span>, minEnd: int, a: iset<Boundary>, b: iset<Boundary>, best: Option<Boundary>)
    requires BestOf(t, spans, minEnd, a, best) && forall c :: c in a <==> c in b
    ensures BestOf(t, spans, minEnd, b, best)
  {
    assert a == b;
  }

  ghost function ParaSet(done: seq<Span>): iset<Boundary> {
    iset c: Boundary | c.priority == 1 && Span(c.start, c.end) in done
  }

  lemma ParaSetMore(done: seq<Span>, s: Span)
    ensures ParaSet(done + [s]) == ParaSet(done) + iset{Boundary(s.start, s.end, 1)}
  {
  }

  /** First scan: paragraph breaks, marking their runes. */
  method ScanParagraphs(t: string, spans: seq<Span>, minEnd: int) returns (best: Option<Boundary>, marks: seq<bool>)
    ensures |marks| == |t| && forall k :: 0 <= k < |t| ==> (marks[k] <==> InParagraph(t, k))
    ensures BestOf(t, spans, minEnd, ParaSet(Paragraphs(t, 0)), best)
  {
    best := None;
    marks := seq(|t|, _ => false);
    ghost var done: seq<Span> := [];
    var i := 0;
    while i < |t|
      invariant 0 <= i && |marks| == |t|
      invariant done + Paragraphs(t, i) == Paragraphs(t, 0)
      invariant forall k :: 0 <= k < |t| ==> (marks[k] <==> Within(done, k))
      invariant BestOf(t, spans, minEnd, ParaSet(done), best)
    {
      if DoubleCrLf(t, i) || DoubleLf(t, i) {
        var n := if DoubleCrLf(t, i) then 4 else 2;
        var s := Span(i, i + n);
        best := Consider(t, spans, minEnd, best, Boundary(i, i + n, 1), ParaSet(done));
        ParaSetMore(done, s);
        marks := Mark(marks, i, n, done);
        done := done + [s];
        i := i + n;
      } else {
        i := i + 1;
      }
    }
    assert done == Paragraphs(t, 0);
  }

  method Mark(marks: seq<bool>, i: nat, n: nat, ghost done: seq<Span>) returns (marks': seq<bool>)
    requires i + n <= |marks| && forall k :: 0 <= k < |marks| ==> (marks[k] <==> Within(done, k))
    ensures |marks'| == |marks| && forall k :: 0 <= k < |marks| ==> (marks'[k] <==> Within(done + [Span(i, i + n)], k))
  {
    marks' := marks;
    for j := i to i + n
      invariant |marks'| == |marks|
      invariant forall k :: 0 <= k < |marks| ==> (marks'[k] <==> marks[k] || i <= k < j)
    {
      marks' := marks'[j := true];
    }
    ghost var s := Span(i, i + n);
    forall k | 0 <= k < |marks| ensures marks'[k] <==> Within(done + [s], k) {
      if Within(done, k) {
        var w :| w in done && w.start <= k < w.end;
        assert w in done + [s];
      }
      if i <= k < i + n { assert s in done + [s]; }
    }
  }

  /** The boundaries of priority 1, and those of priority 2 that start before i. */
  ghost function LineSet(t: string, i: int): iset<Boundary> {
    iset c: Boundary | (c.priority == 1 && Span(c.start, c.end) in Paragraphs(t, 0))
                       || (c.priority == 2 && c.start < i && LineBreak(t, c.start, c.end))
  }

  lemma LineSetCrLf(t: string, i: int)
    requires LineCrLf(t, i)
    ensures LineSet(t, i + 2) == LineSet(t, i) + iset{Boundary(i, i + 2, 2)}
  {
    assert !LineBreak(t, i, i + 1);
  }

  lemma LineSetLf(t: string, i: int)
    requires 0 <= i < |t| && t[i] == '\n' && !InParagraph(t, i) && !LineCrLf(t, i - 1)
    ensures LineSet(t, i + 1) == LineSet(t, i) + iset{Boundary(i, i + 1, 2)}
  {
    assert !LineBreak(t, i, i + 2);
  }

  lemma LineSetSkip(t: string, i: int)
    requires 0 <= i < |t| && !LineBreak(t, i, i + 1) && !LineBreak(t, i, i + 2)
    ensures LineSet(t, i + 1) == LineSet(t, i)
  {
    forall c ensures c in LineSet(t, i + 1) <==> c in LineSet(t, i) {
      if c.priority == 2 && c.start == i && LineBreak(t, c.start, c.end) {
        assert c.end == i + 1 || c.end == i + 2;
      }
    }
  }

  /** Second scan: line breaks outside paragraph breaks. */
  method ScanLines(t: string, spans: seq<Span>, minEnd: int, marks: seq<bool>, best: Option<Boundary>) returns (best': Option<Boundary>)
    requires |marks| == |t| && forall k :: 0 <= k < |t| ==> (marks[k] <==> InParagraph(t, k))
    requires BestOf(t, spans, minEnd, ParaSet(Paragraphs(t, 0)), best)
    ensures BestOf(t, spans, minEnd, LineSet(t, |t|), best')
  {
    best' := best;
    BestOfSame(t, spans, minEnd, ParaSet(Paragraphs(t, 0)), LineSet(t, 0), best);
    var i := 0;
    while i < |t|
      invariant 0 <= i <= |t| && !LineCrLf(t, i - 1)
      invariant BestOf(t, spans, minEnd, LineSet(t, i), best')
    {
      if !marks[i] && t[i] == '\r' && i + 1 < |t| && t[i + 1] == '\n' && !marks[i + 1] {
        best' := Consider(t, spans, minEnd, best', Boundary(i, i + 2, 2), LineSet(t, i));
        LineSetCrLf(t, i);
        i := i + 2;
      } else if !marks[i] && t[i] == '\n' {
        best' := Consider(t, spans, minEnd, best', Boundary(i, i + 1, 2), LineSet(t, i));
        LineSetLf(t, i);
        i := i + 1;
      } else {
        LineSetSkip(t, i);
        i := i + 1;
      }
    }
  }

  /** The boundaries of priorities 1 and 2, and those of priority 3 that start before i. */
  ghost function SentenceSet(t: string, i: int): iset<Boundary> {
    iset c: Boundary | IsBoundary(t, c) && (c.priority == 3 ==> c.start < i)
  }

  lemma SentenceSetNext(t: string, i: int, n: int)
    requires 0 <= i < |t| && SentenceEnd(t, i, i + n)
    ensures SentenceSet(t, i + 1) == SentenceSet(t, i) + iset{Boundary(i, i + n, 3)}
  {
    assert !SentenceEnd(t, i, i + 3 - n);
  }

  lemma SentenceSetSkip(t: string, i: int)
    requires 0 <= i < |t| && !SentenceEnd(t, i, i + 1) && !SentenceEnd(t, i, i + 2)
    ensures SentenceSet(t, i + 1) == SentenceSet(t, i)
  {
    forall c ensures c in SentenceSet(t, i + 1) <==> c in SentenceSet(t, i) {
      if c.priority == 3 && c.start == i && SentenceEnd(t, c.start, c.end) {
        assert c.end == i + 1 || c.end == i + 2;
      }
    }
  }

  /** Third scan: sentence ends. */
  method ScanSentences(t: string, spans: seq<Span>, minEnd: int, best: Option<Boundary>) returns (best': Option<Boundary>)
    requires BestOf(t, spans, minEnd, LineSet(t, |t|), best)
    ensures BestOf(t, spans, minEnd, Boundaries(t), best')
  {
    best' := best;
    BestOfSame(t, spans, minEnd, LineSet(t, |t|), SentenceSet(t, 0), best);
    for i := 0 to |t|
      invariant BestOf(t, spans, minEnd, SentenceSet(t, i), best')
    {
      if t[i] == '。' || t[i] == '？' || t[i] == '！' {
        best' := Consider(t, spans, minEnd, best', Boundary(i, i + 1, 3), SentenceSet(t, i));
        SentenceSetNext(t, i, 1);
      } else if (t[i] == '.' || t[i] == '?' || t[i] == '!') && i + 1 < |t| && t[i + 1] == ' ' {
        best' := Consider(t, spans, minEnd, best', Boundary(i, i + 2, 3), SentenceSet(t, i));
        SentenceSetNext(t, i, 2);
      } else {
        SentenceSetSkip(t, i);
      }
    }
    BestOfSame(t, spans, minEnd, SentenceSet(t, |t|), Boundaries(t), best');
  }

  /**
   * findSemanticOverlapBoundaryEndingAtOrAfter: the three scans together compute the argmin
   * over all eligible boundaries.
   */
  method FindBoundary(lex: Lexicon, t: string, minEnd: int) returns (cut: Option<int>)
    requires lex.Valid() && 0 <= minEnd <= |t|
    ensures cut == BestCut(lex, t, minEnd)
    ensures cut.Some? ==> minEnd <= cut.value < |t| && 0 < cut.value && !Blank(t[cut.value..])
  {
    ProtectedOnRunes(lex, t);
    var bytes := Resolve(lex, t);
    var spans := ToRunes(t, bytes);
    var best, marks := ScanParagraphs(t, spans, minEnd);
    best := ScanLines(t, spans, minEnd, marks, best);
    best := ScanSentences(t, spans, minEnd, best);
    assert spans == ProtectedRunes(lex, t);
    BestCutIs(lex, t, minEnd, best);
    cut := match best case None => None case Some(b) => Some(b.end);
  }

  // ---- the accumulator and its suffixes -------------------------------------

  /** The source-backed part of an accumulator: all of it but a leading synthetic unit. */
  function Body(current: seq<SplitUnit>): seq<SplitUnit> {
    if current != [] && current[0].IsSynthetic() then current[1..] else current
  }

  /** What is left of units when leading ones are dropped and the first one kept may lose a prefix. */
  predicate Tail(units: seq<SplitUnit>, tail: seq<SplitUnit>) {
    tail != [] ==>
      && |tail| <= |units|
      && var k := |units| - |tail|;
         tail[1..] == units[k + 1..] && tail[0].end == units[k].end && units[k].start <= tail[0].start
  }

  lemma TailTrans(a: seq<SplitUnit>, b: seq<SplitUnit>, c: seq<SplitUnit>)
    requires Tail(a, b) && Tail(b, c)
    ensures Tail(a, c)
  {
    if c != [] {
      var k, l := |a| - |b|, |b| - |c|;
      assert b[1..] == a[k + 1..];
      if l == 0 {
      } else {
        assert b[l] == b[1..][l - 1] == a[k + 1..][l - 1] == a[k + l];
        assert b[l + 1..] == b[1..][l..] && a[k + 1..][l..] == a[k + l + 1..];
      }
    }
  }

  lemma TailSnoc(units: seq<SplitUnit>, i: nat, tail: seq<SplitUnit>, u: SplitUnit)
    requires i < |units| && Tail(units[..i], tail) && |tail| <= i
    requires u == units[i] || (tail == [] && units[i].start <= u.start && u.end == units[i].end)
    ensures Tail(units[..i + 1], tail + [u])
  {
    var us, k := units[..i + 1], i - |tail|;
    if tail == [] {
      assert us[k + 1..] == [] && (tail + [u])[1..] == [];
    } else {
      assert units[..i][k + 1..] + [u] == us[k + 1..];
      assert (tail + [u])[1..] == tail[1..] + [u];
    }
  }

  const LOOKBEHIND: int := 4

  /** The first n units of the accumulator have their source runes in a..at, the window in at..b. */
  ghost predicate Cut(src: string, current: seq<SplitUnit>, n: int, window: seq<SplitUnit>, a: int, at: int, b: int) {
    && 0 <= n <= |current|
    && Tiles(src, Body(current[..n]), a, at)
    && Tiles(src, window, at, b)
  }

  /** Taking the last of n units, or its tail from rune `cut` on, into the window. */
  lemma {:induction false} CutNext(src: string, current: seq<SplitUnit>, n: int, window: seq<SplitUnit>, a: int, at: int, b: int, cut: nat)
    requires n > 0 && Cut(src, current, n, window, a, at, b) && !current[n - 1].IsSynthetic()
    ensures IsSource(src, current[n - 1]) && current[n - 1].end == at && a <= current[n - 1].start
    ensures cut == 0 ==> Cut(src, current, n - 1, [current[n - 1]] + window, a, current[n - 1].start, b)
    ensures 0 < cut < |current[n - 1].text| ==>
              var v := SplitUnit(current[n - 1].text[cut..], current[n - 1].start + cut, at);
              IsSource(src, v) && Tiles(src, [v] + window, v.start, b)
  {
    var u := current[n - 1];
    var body := Body(current[..n]);
    LastOfBody(current, n);
    TilesAt(src, body, a, at, |body| - 1);
    TilesEnds(src, body, a, at);
    if cut == 0 {
      assert ([u] + window)[1..] == window;
    } else if cut < |u.text| {
      TailOfSource(src, u, cut);
      var v := SplitUnit(u.text[cut..], u.start + cut, at);
      assert ([v] + window)[1..] == window;
    }
  }

  lemma LastOfBody(current: seq<SplitUnit>, n: nat)
    requires 0 < n <= |current| && !current[n - 1].IsSynthetic()
    ensures var body := Body(current[..n]);
            body != [] && body[|body| - 1] == current[n - 1] && Body(current[..n - 1]) == body[..|body| - 1]
  {
    var front := current[..n];
    assert front[n - 1] == current[n - 1] && front[0] == current[0];
    if n > 1 {
      assert current[..n - 1][0] == front[0] && current[..n - 1] == front[..n - 1];
      assert front[1..][..n - 2] == front[..n - 1][1..];
    }
  }

  /** A synthetic unit is the leading one: nothing source-backed is left before it. */
  lemma CutEnds(src: string, current: seq<SplitUnit>, n: int, window: seq<SplitUnit>, a: int, at: int, b: int)
    requires Cut(src, current, n, window, a, at, b)
    requires n == 0 || current[n - 1].IsSynthetic()
    ensures at == a && n <= 1
  {
    var body := Body(current[..n]);
    if body != [] {
      assert body[|body| - 1] == current[n - 1];
      TilesAt(src, body, a, at, |body| - 1);
    }
  }

  /** semanticOverlapWindow: the last maxLen source runes of the accumulator. */
  method Window(ghost src: string, current: seq<SplitUnit>, maxLen: int, ghost a: int, ghost b: int)
    returns (window: seq<SplitUnit>)
    requires 0 < maxLen && 0 <= a <= b <= |src| && Tiles(src, Body(current), a, b)
    ensures Tiles(src, window, Max(a, b - maxLen), b) && Tail(Body(current), window)
  {
    hide Windowed, Body, Tail;
    window := [];
    var remaining := maxLen;
    var n := |current|;
    ghost var at := b;
    NothingWindowed(src, current, a, b);
    while n > 0 && remaining > 0
      invariant 0 <= remaining && at == b - (maxLen - remaining) && 0 <= n <= |current|
      invariant Windowed(src, current, n, window, a, at, b, remaining > 0)
      decreases n
    {
      var u := current[n - 1];
      if u.IsSynthetic() {
        break;
      }
      if |u.text| <= remaining {
        WindowNext(src, current, n, window, a, at, b, 0, |u.text| < remaining);
        window := [u] + window;
        remaining := remaining - |u.text|;
        at := u.start;
      } else {
        var start := |u.text| - remaining;
        WindowNext(src, current, n, window, a, at, b, start, false);
        window := [SplitUnit(u.text[start..], u.start + start, u.end)] + window;
        at := at - remaining;
        remaining := 0;
      }
      n := n - 1;
    }
    WindowDone(src, current, n, window, a, at, b, remaining > 0);
  }

  /** The window is the last part of the accumulator from source rune at on; while it grows, it is whole units. */
  ghost predicate Windowed(src: string, current: seq<SplitUnit>, n: int, window: seq<SplitUnit>, a: int, at: int, b: int, grows: bool) {
    && 0 <= n <= |current| && |window| == |current| - n && a <= at && Tiles(src, window, at, b)
    && Tail(current, window) && (n < |current| ==> !current[n].IsSynthetic())
    && (grows ==> window == current[n..] && Cut(src, current, n, window, a, at, b))
  }

  lemma NothingWindowed(src: string, current: seq<SplitUnit>, a: int, b: int)
    requires 0 <= a <= b <= |src| && Tiles(src, Body(current), a, b)
    ensures Windowed(src, current, |current|, [], a, b, b, true)
  {
    assert current[..|current|] == current;
  }

  /** Taking the last unit before the window, or its tail. */
  lemma WindowNext(src: string, current: seq<SplitUnit>, n: int, window: seq<SplitUnit>, a: int, at: int, b: int, cut: nat,
                   grows: bool)
    requires n > 0 && Windowed(src, current, n, window, a, at, b, true) && !current[n - 1].IsSynthetic()
    requires cut == 0 || (cut < |current[n - 1].text| && !grows)
    ensures var u := current[n - 1]; var v := SplitUnit(u.text[cut..], u.start + cut, u.end);
            && u.end == at && |u.text| == at - u.start && (cut == 0 ==> v == u)
            && Windowed(src, current, n - 1, [v] + window, a, v.start, b, grows)
  {
    hide Tiles, Tail;
    var u := current[n - 1];
    CutNext(src, current, n, window, a, at, b, cut);
    PartialTail(current, n, SplitUnit(u.text[cut..], u.start + cut, u.end));
    if cut == 0 {
      assert u.text[0..] == u.text;
      CutTiles(src, current, n - 1, [u] + window, a, u.start, b);
    }
  }

  lemma CutTiles(src: string, current: seq<SplitUnit>, n: int, window: seq<SplitUnit>, a: int, at: int, b: int)
    requires Cut(src, current, n, window, a, at, b)
    ensures Tiles(src, window, at, b)
  {
  }

  lemma WindowDone(src: string, current: seq<SplitUnit>, n: int, window: seq<SplitUnit>, a: int, at: int, b: int, grows: bool)
    requires Windowed(src, current, n, window, a, at, b, grows) && (grows ==> n == 0 || current[n - 1].IsSynthetic())
    ensures Tiles(src, window, at, b) && a <= at && Tail(Body(current), window) && (grows ==> at == a)
  {
    if grows {
      CutEnds(src, current, n, window, a, at, b);
    }
    WindowTail(current, n, window);
  }

  lemma PartialTail(current: seq<SplitUnit>, n: nat, u: SplitUnit)
    requires 0 < n <= |current| && current[n - 1].start <= u.start && u.end == current[n - 1].end
    ensures Tail(current, [u] + current[n..]) && (u == current[n - 1] ==> [u] + current[n..] == current[n - 1..])
  {
    assert ([u] + current[n..])[1..] == current[n..];
  }

  /** The window never reaches into a leading synthetic unit. */
  lemma WindowTail(current: seq<SplitUnit>, n: nat, window: seq<SplitUnit>)
    requires n <= |current| && |window| == |current| - n && Tail(current, window)
    requires n < |current| ==> !current[n].IsSynthetic()
    ensures Tail(Body(current), window)
  {
    if window != [] && Body(current) != current {
      assert Body(current)[n - 1] == current[n] && Body(current)[n..] == current[n + 1..];
    }
  }

  lemma TailOfSource(src: string, u: SplitUnit, cut: nat)
    requires IsSource(src, u) && cut < |u.text|
    ensures IsSource(src, SplitUnit(u.text[cut..], u.start + cut, u.end))
  {
    SliceOfSlice(src, u.start, u.end, cut, |u.text|);
    assert u.text[cut..] == u.text[cut..|u.text|];
  }

  /** trimUnitsPrefix: drops a prefix of runes, keeping the positions of the rest. */
  method TrimPrefix(ghost src: string, units: seq<SplitUnit>, prefixLen: int, ghost a: int, ghost b: int)
    returns (out: seq<SplitUnit>)
    requires 0 <= a && b <= |src| && Tiles(src, units, a, b) && 0 <= prefixLen <= b - a
    ensures Tiles(src, out, a + prefixLen, b) && Tail(units, out)
  {
    if prefixLen <= 0 {
      return units;
    }
    out := [];
    var remaining := prefixLen;
    ghost var at := a;
    for i := 0 to |units|
      invariant Tiles(src, units[i..], at, b) && at <= b && 0 <= remaining
      invariant remaining > 0 ==> out == [] && at + remaining == a + prefixLen
      invariant remaining == 0 ==> Tiles(src, out, a + prefixLen, at)
      invariant |out| <= i && Tail(units[..i], out)
    {
      var u := units[i];
      assert units[i..][1..] == units[i + 1..];
      TilesEnds(src, units[i + 1..], u.end, b);
      if remaining >= |u.text| {
        remaining := remaining - |u.text|;
      } else {
        if remaining > 0 {
          TailOfSource(src, u, remaining);
          u := SplitUnit(u.text[remaining..], u.start + remaining, u.end);
          remaining := 0;
        }
        TilesSnoc(src, out, u, a + prefixLen, u.start);
        TailSnoc(units, i, out, u);
        out := out + [u];
      }
      at := u.end;
    }
    assert units[..|units|] == units;
  }

  /** The budget an overlap may use: the configured overlap, or what the next unit leaves over. */
  function OverlapBudget(chunkOverlap: int, chunkSize: int, nextLen: int): int {
    Min(chunkOverlap, chunkSize - nextLen)
  }

  /** Where the window that the selection looks at begins. */
  function WindowStart(a: int, b: int, budget: int): int {
    Max(a, b - (budget + LOOKBEHIND))
  }

  /** Where the carried suffix of src[a..b] starts, if anything is carried. */
  ghost function OverlapStart(lex: Lexicon, src: string, a: int, b: int, budget: int): Option<int>
    requires lex.Valid() && 0 <= a <= b <= |src|
  {
    if budget <= 0 || a == b then None
    else
      var w := WindowStart(a, b, budget);
      match BestCut(lex, src[w..b], Max(0, (b - w) - budget))
      case None => None
      case Some(cut) => Some(w + cut)
  }

  /** The overlap is the non-blank source text from `from` to b, within the budget. */
  predicate Carried(src: string, overlap: seq<SplitUnit>, overlapLen: int, a: int, b: int, budget: int, from: Option<int>) {
    match from
    case None => overlap == [] && overlapLen == 0
    case Some(f) =>
      && 0 <= a <= f < b <= |src| && Tiles(src, overlap, f, b)
      && overlapLen == b - f <= budget && !Blank(src[f..b])
  }

  /**
   * computeOverlap carries exactly the text after the winning boundary: a non-blank source
   * suffix within the budget, or nothing when no boundary is eligible.
   */
  method ComputeOverlap(lex: Lexicon, ghost src: string, current: seq<SplitUnit>, chunkOverlap: int, chunkSize: int,
                        nextLen: int, ghost a: int, ghost b: int)
    returns (overlap: seq<SplitUnit>, overlapLen: int)
    requires lex.Valid() && 0 <= a <= b <= |src| && Tiles(src, Body(current), a, b)
    ensures var budget := OverlapBudget(chunkOverlap, chunkSize, nextLen);
            Carried(src, overlap, overlapLen, a, b, budget, OverlapStart(lex, src, a, b, budget))
    ensures Tail(Body(current), overlap)
  {
    hide BestCut, Tail;
    assert Tail(Body(current), []) by { NoTail(Body(current)); }
    if chunkOverlap <= 0 {
      return [], 0;
    }
    var maxOverlap := chunkOverlap;
    if chunkSize - nextLen < maxOverlap {
      maxOverlap := chunkSize - nextLen;
    }
    if maxOverlap <= 0 {
      return [], 0;
    }
    var window := Window(src, current, maxOverlap + LOOKBEHIND, a, b);
    if |window| == 0 {
      return [], 0;
    }
    ghost var w := WindowStart(a, b, maxOverlap);
    TilesEnds(src, window, w, b);
    ghost var from: Option<int>;
    overlap, overlapLen, from := CutWindow(lex, src, window, maxOverlap, w, b);
    OverlapStartIs(lex, src, a, b, maxOverlap);
    CarriedWiden(src, overlap, overlapLen, a, w, b, maxOverlap, from);
    TailTrans(Body(current), window, overlap);
  }

  lemma NoTail(units: seq<SplitUnit>)
    ensures Tail(units, [])
  {
  }

  lemma OverlapStartIs(lex: Lexicon, src: string, a: int, b: int, budget: int)
    requires lex.Valid() && 0 <= a < b <= |src| && budget > 0
    ensures var w := WindowStart(a, b, budget);
            var cut := BestCut(lex, src[w..b], Max(0, (b - w) - budget));
            OverlapStart(lex, src, a, b, budget) == if cut.None? then None else Some(w + cut.value)
  {
    hide BestCut;
  }

  lemma CarriedWiden(src: string, overlap: seq<SplitUnit>, overlapLen: int, a: int, w: int, b: int, budget: int, from: Option<int>)
    requires 0 <= a <= w && Carried(src, overlap, overlapLen, w, b, budget, from)
    ensures Carried(src, overlap, overlapLen, a, b, budget, from)
  {
  }

  /** The selection inside a non-empty window src[w..b]. */
  method CutWindow(lex: Lexicon, ghost src: string, window: seq<SplitUnit>, maxOverlap: int, ghost w: int, ghost b: int)
    returns (overlap: seq<SplitUnit>, overlapLen: int, ghost from: Option<int>)
    requires lex.Valid() && 0 <= w < b <= |src| && Tiles(src, window, w, b) && maxOverlap > 0
    ensures var cut := BestCut(lex, src[w..b], Max(0, (b - w) - maxOverlap));
            from == if cut.None? then None else Some(w + cut.value)
    ensures Carried(src, overlap, overlapLen, w, b, maxOverlap, from) && Tail(window, overlap)
  {
    hide BestCut, Tail, Tiles, Blank;
    TilesText(src, window, w, b);
    var windowText := UnitsText(window);
    var minEnd := |windowText| - maxOverlap;
    if minEnd < 0 {
      minEnd := 0;
    }
    assert windowText == src[w..b] && minEnd == Max(0, (b - w) - maxOverlap);
    var cut := FindBoundary(lex, windowText, minEnd);
    overlap, overlapLen, from := [], 0, None;
    if cut.None? {
      NoTail(window);
      return;
    }
    from := Some(w + cut.value);
    overlap := TrimPrefix(src, window, cut.value, w, b);
    TilesText(src, overlap, w + cut.value, b);
    SliceOfSlice(src, w, b, cut.value, |windowText|);
    overlapLen := |UnitsText(overlap)|;
    assert windowText[cut.value..] == windowText[cut.value..|windowText|];
    // The final guard of the source, which the boundary's own conditions already rule out.
    if overlapLen <= 0 || overlapLen > maxOverlap || Blank(UnitsText(overlap)) {
      assert false;
    }
  }
}
