/** The heading tier: sections, their breadcrumbs, and the coalescing of tiny chunks. */
module HeadingTier {
  import opened Numbers
  import opened Text
  import opened Chunks
  import opened Lexicons
  import opened Configs
  import opened Units
  import opened Merge
  import opened Lines
  import opened Hierarchy
  import opened HeadingScan
  import opened Profiles
  import opened Coalesce
  import opened Sequences

  // ---- sections of a document -----------------------------------------------

  function SectionLine(ls: seq<string>, idx: seq<nat>, k: nat): nat
    requires k <= |idx|
  {
    if k < |idx| then idx[k] else |ls|
  }

  /** Where section k starts; the document's end for k == |idx|. */
  function SectionStart(text: string, ls: seq<string>, idx: seq<nat>, k: nat): nat
    requires k <= |idx| && forall i :: 0 <= i < |idx| ==> idx[i] < |ls|
  {
    if k < |idx| then LineStart(ls, idx[k]) else |text|
  }

  /** A section is a run of whole lines that starts outside fences and has no later primary heading. */
  lemma SectionFacts(text: string, primary: nat, bounds: seq<HeadingBoundary>, idx: seq<nat>, k: nat)
    requires BoundsAre(Split(text), primary, |Split(text)|, bounds, idx) && k < |idx|
    ensures var ls := Split(text);
            var p, q := SectionStart(text, ls, idx, k), SectionStart(text, ls, idx, k + 1);
            var a, b := SectionLine(ls, idx, k), SectionLine(ls, idx, k + 1);
            && p == bounds[k].runeStart && p <= q <= |text| && (k == 0 ==> p == 0 && a == 0)
            && SectionLines(ls, a, b, Split(text[p..q])) && IsSection(ls, primary, a, b)
            && (bounds[k].line == if IsPrimary(ls, primary, a) then ls[a] else "") && (k > 0 ==> IsPrimary(ls, primary, a))
            && (b < |ls| ==> IsPrimary(ls, primary, b))
  {
    hide Split, LevelAt, LineStart;
    var ls := Split(text);
    var a, b := SectionLine(ls, idx, k), SectionLine(ls, idx, k + 1);
    SliceToEnd(text, a);
    if b < |ls| {
      SliceLines(text, a, b);
    } else {
      var p := LineStart(ls, a);
      assert text[p..|text|] == text[p..];
    }
    FirstStart(ls);
    NoPrimaryInside(ls, primary, bounds, idx, k);
  }

  lemma FirstStart(ls: seq<string>)
    ensures LineStart(ls, 0) == 0
  {
  }

  lemma NoPrimaryInside(ls: seq<string>, primary: nat, bounds: seq<HeadingBoundary>, idx: seq<nat>, k: nat)
    requires BoundsAre(ls, primary, |ls|, bounds, idx) && k < |idx|
    ensures IsSection(ls, primary, SectionLine(ls, idx, k), SectionLine(ls, idx, k + 1))
  {
    hide LineStart, HeadingLevel;
    var a, b := SectionLine(ls, idx, k), SectionLine(ls, idx, k + 1);
    if k > 0 { assert IsPrimary(ls, primary, idx[k]); }
    forall j | a < j < b ensures !IsPrimary(ls, primary, j) {
      if IsPrimary(ls, primary, j) {
        assert j in idx;
        var l :| 0 <= l < |idx| && idx[l] == j;
      }
    }
  }

  /** Offsets inside a section count its own lines after those before it. */
  lemma SectionOffset(text: string, a: nat, b: nat, p: nat, q: nat, off: nat)
    requires var ls := Split(text); a < b <= |ls| && p == LineStart(ls, a) <= q <= |text|
    requires SectionLines(Split(text), a, b, Split(text[p..q])) && off < q - p
    ensures var sec := Split(text[p..q]);
            && 0 < LinesUpTo(sec, off) <= b - a
            && LinesUpTo(Split(text), p + off) == a + LinesUpTo(sec, off)
  {
    hide Split, LinesUpTo, Join;
    var ls, sec := Split(text), Split(text[p..q]);
    LinesUpToSpec(sec, off);
    var n := LinesUpTo(sec, off);
    JoinSplit(text[p..q]);
    JoinLength(sec);
    SectionStarts(ls, a, b, sec, n - 1);
    if n < |sec| { SectionStarts(ls, a, b, sec, n); }
    if n == b - a && n == |sec| && a + n < |ls| {
      SectionStarts(ls, a, b, sec, n);
    }
    LinesUpToIs(ls, p + off, a + n);
  }

  lemma SectionStarts(ls: seq<string>, a: nat, b: nat, sec: seq<string>, n: nat)
    requires SectionLines(ls, a, b, sec) && n <= b - a
    ensures LineStart(ls, a + n) == LineStart(ls, a) + LineStart(sec, n)
  {
    LineStartMid(ls, a, a + n);
    assert forall k :: 0 <= k < n ==> ls[a..a + n][k] == sec[..n][k];
    assert ls[a..a + n] == sec[..n] && sec == sec[..n] + sec[n..];
    LineStartAppend(sec[..n], sec[n..], n);
  }

  /** The stack once a section's opening heading has been observed. */
  function OpenedStack(lex: Lexicon, ls: seq<string>, primary: nat, a: nat): Stack
    requires a < |ls|
  {
    StackAfter(StackAfter(EMPTY_STACK, History(lex, ls, 0, a)), Opening(lex, ls, primary, a))
  }

  /** The section-local breadcrumb is the global one. */
  lemma CrumbInSection(lex: Lexicon, text: string, primary: nat, a: nat, b: nat, p: nat, q: nat, off: nat)
    requires var ls := Split(text); a < b <= |ls| && p == LineStart(ls, a) <= q <= |text| && IsSection(ls, primary, a, b)
    requires SectionLines(Split(text), a, b, Split(text[p..q])) && off < q - p
    ensures var sec := Split(text[p..q]);
            GlobalCrumb(lex, text, p + off) == SubCrumb(lex, sec, primary, OpenedStack(lex, Split(text), primary, a), LinesUpTo(sec, off))
  {
    hide Split, LinesUpTo, History, Opening, LineStart, Crumb, StackAfter, IsSection;
    var ls, sec := Split(text), Split(text[p..q]);
    SectionOffset(text, a, b, p, q, off);
    var n := LinesUpTo(sec, off);
    SectionHistory(lex, ls, primary, a, b, sec, n);
    StackAfterAppend(EMPTY_STACK, History(lex, ls, 0, a) + Opening(lex, ls, primary, a), History(lex, sec, primary, n));
    StackAfterAppend(EMPTY_STACK, History(lex, ls, 0, a), Opening(lex, ls, primary, a));
  }

  /** After a whole section the hierarchy is in step with the global scan. */
  lemma StackAfterSection(lex: Lexicon, ls: seq<string>, primary: nat, a: nat, b: nat, sec: seq<string>)
    requires SectionLines(ls, a, b, sec) && IsSection(ls, primary, a, b)
    ensures SubStack(lex, sec, primary, OpenedStack(lex, ls, primary, a), |sec|) == StackAfter(EMPTY_STACK, History(lex, ls, 0, b))
  {
    hide History, Opening, StackAfter, IsSection;
    SectionHistoryWhole(lex, ls, primary, a, b, sec);
    SectionHistory(lex, ls, primary, a, b, sec, b - a);
    StackAfterAppend(EMPTY_STACK, History(lex, ls, 0, a) + Opening(lex, ls, primary, a), History(lex, sec, primary, b - a));
    StackAfterAppend(EMPTY_STACK, History(lex, ls, 0, a), Opening(lex, ls, primary, a));
  }

  lemma OpenedStackIs(lex: Lexicon, ls: seq<string>, primary: nat, a: nat)
    requires a < |ls|
    ensures OpenedStack(lex, ls, primary, a)
            == if IsPrimary(ls, primary, a)
               then Observed(StackAfter(EMPTY_STACK, History(lex, ls, 0, a)), Heading(HeadingLevel(ls[a]), lex.headingText(ls[a])))
               else StackAfter(EMPTY_STACK, History(lex, ls, 0, a))
    ensures IsPrimary(ls, primary, a) ==> HeadingLevel(ls[a]) > 0 && ls[a] != ""
  {
    hide History, Observed;
    if IsPrimary(ls, primary, a) {
      var h := Heading(LevelAt(ls, a), lex.headingText(ls[a]));
      var s := StackAfter(EMPTY_STACK, History(lex, ls, 0, a));
      assert [h][..0] == [];
      assert StackAfter(s, [h][..0]) == s;
      assert StackAfter(s, [h]) == Observed(s, h);
    }
  }

  // ---- the chunks of each section -------------------------------------------

  /** The first line from i on that is a primary heading; the number of lines when there is none. */
  function FirstPrimary(ls: seq<string>, primary: nat, i: nat): (j: nat)
    requires i <= |ls|
    ensures i <= j <= |ls|
    decreases |ls| - i
  {
    if i == |ls| || IsPrimary(ls, primary, i) then i else FirstPrimary(ls, primary, i + 1)
  }

  lemma {:induction false} FirstPrimaryIs(ls: seq<string>, primary: nat, i: nat, b: nat)
    requires i <= b <= |ls| && (b < |ls| ==> IsPrimary(ls, primary, b))
    requires forall j :: i <= j < b ==> !IsPrimary(ls, primary, j)
    ensures FirstPrimary(ls, primary, i) == b
    decreases b - i
  {
    hide LevelAt;
    if i == b {
    } else {
      FirstPrimaryIs(ls, primary, i + 1, b);
    }
  }

  /** The length of the document's first section. */
  function FirstSection(text: string, primary: nat): nat {
    EndBefore(text, FirstPrimary(Split(text), primary, 1))
  }

  lemma FirstSectionIs(text: string, primary: nat, b: nat)
    requires IsSection(Split(text), primary, 0, b) && (b < |Split(text)| ==> IsPrimary(Split(text), primary, b))
    ensures FirstSection(text, primary) == EndBefore(text, b)
  {
    hide Split, LevelAt;
    FirstPrimaryIs(Split(text), primary, 1, b);
  }

  /** The document opens with a heading deeper than the primary level, and its whole first section fits one chunk. */
  predicate Bare(text: string, primary: nat, chunkSize: int) {
    LevelAt(Split(text), 0) > primary && FirstSection(text, primary) + 2 <= chunkSize
  }

  /** The breadcrumb a chunk carries: the global one at its start, but none on the first chunk of a bare document. */
  predicate ContextOk(lex: Lexicon, text: string, primary: nat, chunkSize: int, c: Chunk) {
    c.contextHeader == if c.start == 0 && Bare(text, primary, chunkSize) then "" else GlobalCrumb(lex, text, c.start)
  }

  /** No primary heading starts strictly inside the range: it lies within one section. */
  predicate Uncrossed(text: string, primary: nat, start: int, end: int) {
    var ls := Split(text);
    forall j :: 0 <= j < |ls| && IsPrimary(ls, primary, j) ==> !(start < LineStart(ls, j) < end)
  }

  /** Where a section that ends before line b ends. */
  function EndBefore(text: string, b: nat): nat
    requires b <= |Split(text)|
  {
    if b < |Split(text)| then LineStart(Split(text), b) else |text|
  }

  lemma InsideSection(text: string, primary: nat, a: nat, b: nat, start: int, end: int)
    requires IsSection(Split(text), primary, a, b)
    requires LineStart(Split(text), a) <= start && end <= EndBefore(text, b)
    ensures Uncrossed(text, primary, start, end)
  {
    hide LevelAt, Split;
    var ls := Split(text);
    forall j | 0 <= j < |ls| && IsPrimary(ls, primary, j) ensures !(start < LineStart(ls, j) < end) {
      if j <= a {
        LineStartMonotone(ls, j, a);
      } else if b <= j {
        LineStartMonotone(ls, b, j);
      }
    }
  }

  predicate TierChunk(lex: Lexicon, text: string, cfg: Config, primary: nat, pos: int, c: Chunk) {
    && Verbatim(text, c) && c.end <= pos && c.pages.None?
    && |c.content| <= Max(cfg.chunkSize, ABSOLUTE_MAX)
    && ContextOk(lex, text, primary, cfg.chunkSize, c) && Uncrossed(text, primary, c.start, c.end)
  }

  /** The chunks of the sections before pos. */
  ghost predicate Sectioned(lex: Lexicon, text: string, cfg: Config, primary: nat, out: seq<Chunk>, pos: int) {
    && (forall i :: 0 <= i < |out| ==> TierChunk(lex, text, cfg, primary, pos, out[i]))
    && DenseSeq(out) && Separate(cfg.chunkSize, out)
    && (forall k :: 0 <= k < pos && k < |text| && !IsSpace(text[k]) ==> InSome(out, k))
  }

  /** A chunk of text[p..q], moved to its place in text, with its breadcrumb. */
  function Shifted(c: Chunk, p: int, header: string, seqNo: nat): Chunk {
    Chunk(c.content, header, seqNo, p + c.start, p + c.end, None, c.synthetic)
  }

  lemma ShiftedVerbatim(text: string, p: nat, q: nat, c: Chunk, header: string, seqNo: nat)
    requires p <= q <= |text| && Verbatim(text[p..q], c)
    ensures Verbatim(text, Shifted(c, p, header, seqNo))
  {
    SliceOfSlice(text, p, q, c.start, c.end);
  }

  /** sub is c in its place, with the section's breadcrumb at its start. */
  predicate SubOf(lex: Lexicon, sec: seq<string>, primary: nat, seed: Stack, p: int, c: Chunk, seqNo: nat, sub: Chunk) {
    sub == Shifted(c, p, SubCrumb(lex, sec, primary, seed, LinesUpTo(sec, c.start)), seqNo)
  }

  /** An oversized section: the inner chunks, shifted, each with the breadcrumb at its own start. */
  method OversizedSection(lex: Lexicon, text: string, cfg: Config, primary: nat, seed: HeadingHierarchy, breadcrumb: string,
                          p: nat, q: nat, startSeq: nat)
    returns (subs: seq<Chunk>, ghost inner: seq<Chunk>, ghost units: seq<SplitUnit>)
    requires lex.Valid() && cfg == EnsureDefaults(lex, cfg) && seed.Valid() && p < q <= |text|
    ensures SplitOk(lex, text[p..q], cfg, units, inner) && |subs| == |inner|
    ensures forall i :: 0 <= i < |subs| ==> SubOf(lex, Split(text[p..q]), primary, seed.stack, p, inner[i], startSeq + i, subs[i])
  {
    hide SplitOk, Split, SubCrumb, LinesUpTo, AtOffset, CrumbsUpTo, EnsureDefaults;
    var content := text[p..q];
    var crumbs := SectionBreadcrumbs(lex, content, primary, seed);
    var chunks: seq<Chunk>;
    chunks, units := SplitText(lex, content, cfg);
    inner := chunks;
    StartsInside(lex, content, cfg, units, chunks);
    subs := [];
    for i := 0 to |chunks|
      invariant |subs| == i
      invariant forall j :: 0 <= j < i ==> SubOf(lex, Split(content), primary, seed.stack, p, inner[j], startSeq + j, subs[j])
    {
      var sub := chunks[i];
      CrumbAt(lex, Split(content), primary, seed.stack, crumbs, sub.start, breadcrumb);
      subs := subs + [Shifted(sub, p, AtOffset(crumbs, sub.start, breadcrumb), startSeq + i)];
    }
  }

  lemma CrumbAt(lex: Lexicon, sec: seq<string>, primary: nat, seed: Stack, crumbs: seq<SectionCrumb>, off: nat, fallback: string)
    requires CrumbsUpTo(lex, sec, primary, seed, |sec|, crumbs)
    ensures AtOffset(crumbs, off, fallback) == SubCrumb(lex, sec, primary, seed, LinesUpTo(sec, off))
  {
    hide AtOffset, SubCrumb, LinesUpTo;
    assert AtOffset(crumbs, off, fallback) == SubCrumb(lex, sec, primary, seed, Min(|sec|, LinesUpTo(sec, off)));
  }

  lemma StartsInside(lex: Lexicon, content: string, cfg: Config, units: seq<SplitUnit>, chunks: seq<Chunk>)
    requires lex.Valid() && SplitOk(lex, content, cfg, units, chunks) && content != ""
    ensures forall i :: 0 <= i < |chunks| ==> 0 <= chunks[i].start < |content|
  {
    forall i | 0 <= i < |chunks| ensures 0 <= chunks[i].start < |content| {
      assert Verbatim(content, chunks[i]);
    }
  }

  lemma OversizedOk(lex: Lexicon, text: string, cfg: Config, primary: nat, out: seq<Chunk>, subs: seq<Chunk>, inner: seq<Chunk>,
                    units: seq<SplitUnit>, a: nat, b: nat, p: nat, q: nat, seed: Stack)
    requires lex.Valid() && Sectioned(lex, text, cfg, primary, out, p) && cfg.chunkSize >= 1
    requires var ls := Split(text); a < b <= |ls| && p == LineStart(ls, a) < q <= |text| && IsSection(ls, primary, a, b)
    requires q == EndBefore(text, b) && (b < |Split(text)| ==> IsPrimary(Split(text), primary, b))
    requires SectionLines(Split(text), a, b, Split(text[p..q])) && seed == OpenedStack(lex, Split(text), primary, a)
    requires |Crumb(seed, 6)| + 2 + q - p > cfg.chunkSize
    requires SplitOk(lex, text[p..q], cfg, units, inner) && |subs| == |inner|
    requires forall i :: 0 <= i < |subs| ==> SubOf(lex, Split(text[p..q]), primary, seed, p, inner[i], |out| + i, subs[i])
    ensures Sectioned(lex, text, cfg, primary, out + subs, q)
  {
    hide Split, SubCrumb, LinesUpTo, GlobalCrumb, LineStart, IsSection, OpenedStack, SplitOk, Sectioned, SectionLines, ContextOk,
         Verbatim, Uncrossed, EndBefore, Crumb, LevelAt, IsPrimary, Bare;
    OversizedNotBare(lex, text, primary, cfg.chunkSize, a, b, p, q);
    forall i | 0 <= i < |subs| ensures TierChunk(lex, text, cfg, primary, q, subs[i]) {
      InnerFacts(lex, text[p..q], cfg, units, inner, i);
      ShiftedVerbatim(text, p, q, inner[i], subs[i].contextHeader, subs[i].seqNo);
      CrumbInSection(lex, text, primary, a, b, p, q, inner[i].start);
      SameContext(lex, text, primary, cfg.chunkSize, subs[i]);
      InsideSection(text, primary, a, b, subs[i].start, subs[i].end);
    }
    OversizedJoins(lex, text, cfg, primary, out, subs, inner, units, p, q);
    InnerCovers(lex, text, cfg, units, inner, subs, p, q);
    SectionedMore(lex, text, cfg, primary, out, subs, p, q);
  }

  lemma SameContext(lex: Lexicon, text: string, primary: nat, chunkSize: int, c: Chunk)
    requires c.contextHeader == GlobalCrumb(lex, text, c.start) && (c.start == 0 ==> !Bare(text, primary, chunkSize))
    ensures ContextOk(lex, text, primary, chunkSize, c)
  {
    hide GlobalCrumb, Bare;
  }

  /** A document whose first section is oversized is not bare. */
  lemma OversizedNotBare(lex: Lexicon, text: string, primary: nat, chunkSize: int, a: nat, b: nat, p: nat, q: nat)
    requires IsSection(Split(text), primary, a, b) && (b < |Split(text)| ==> IsPrimary(Split(text), primary, b))
    requires p == LineStart(Split(text), a) && q == EndBefore(text, b)
    requires |Crumb(OpenedStack(lex, Split(text), primary, a), 6)| + 2 + q - p > chunkSize
    ensures p == 0 ==> !Bare(text, primary, chunkSize)
  {
    hide Split, LevelAt, Crumb, OpenedStack, EndBefore;
    var ls := Split(text);
    LineStartMonotone(ls, 0, a);
    FirstStart(ls);
    if a == 0 {
      FirstSectionIs(text, primary, b);
      if LevelAt(ls, 0) > primary {
        EmptySeed(lex, ls, primary);
      }
    }
  }

  lemma InnerFacts(lex: Lexicon, content: string, cfg: Config, units: seq<SplitUnit>, inner: seq<Chunk>, i: nat)
    requires lex.Valid() && SplitOk(lex, content, cfg, units, inner) && i < |inner| && content != ""
    ensures Verbatim(content, inner[i]) && 0 <= inner[i].start < |content| && inner[i].end <= |content|
    ensures |inner[i].content| <= Max(cfg.chunkSize, ABSOLUTE_MAX)
  {
    StartsInside(lex, content, cfg, units, inner);
  }

  lemma InnerCovers(lex: Lexicon, text: string, cfg: Config, units: seq<SplitUnit>, inner: seq<Chunk>, subs: seq<Chunk>, p: nat, q: nat)
    requires lex.Valid() && p <= q <= |text| && SplitOk(lex, text[p..q], cfg, units, inner) && |subs| == |inner|
    requires forall i :: 0 <= i < |subs| ==> subs[i].start == p + inner[i].start && subs[i].end == p + inner[i].end
    ensures forall k :: p <= k < q && !IsSpace(text[k]) ==> InSome(subs, k)
  {
    forall k | p <= k < q && !IsSpace(text[k]) ensures InSome(subs, k) {
      assert text[p..q][k - p] == text[k];
      assert InSome(inner, k - p);
      var i :| 0 <= i < |inner| && inner[i].start <= k - p < inner[i].end;
      assert subs[i].start <= k < subs[i].end;
    }
  }

  /** Chunks that cover the next section extend a sectioned list. */
  lemma SectionedMore(lex: Lexicon, text: string, cfg: Config, primary: nat, out: seq<Chunk>, subs: seq<Chunk>, p: nat, q: nat)
    requires Sectioned(lex, text, cfg, primary, out, p) && p <= q <= |text|
    requires forall i :: 0 <= i < |subs| ==> TierChunk(lex, text, cfg, primary, q, subs[i]) && subs[i].seqNo == |out| + i
    requires Separate(cfg.chunkSize, out + subs)
    requires forall k :: p <= k < q && !IsSpace(text[k]) ==> InSome(subs, k)
    ensures Sectioned(lex, text, cfg, primary, out + subs, q)
  {
    hide ContextOk, Verbatim, Separate, InSome, Uncrossed;
    forall k | 0 <= k < q && !IsSpace(text[k]) ensures InSome(out + subs, k) {
      InSomeAppend(out, subs, k);
    }
  }

  lemma OversizedJoins(lex: Lexicon, text: string, cfg: Config, primary: nat, out: seq<Chunk>, subs: seq<Chunk>, inner: seq<Chunk>,
                       units: seq<SplitUnit>, p: nat, q: nat)
    requires lex.Valid() && p < q <= |text| && Sectioned(lex, text, cfg, primary, out, p)
    requires SplitOk(lex, text[p..q], cfg, units, inner) && |subs| == |inner|
    requires forall i :: 0 <= i < |subs| ==> subs[i] == Shifted(inner[i], p, subs[i].contextHeader, subs[i].seqNo)
    ensures Separate(cfg.chunkSize, out + subs)
  {
    hide ContextOk, ProtectedSpans.ProtectedRunes, Covers, SafeCut, Uncrossed, HeadersApart, Separate, AllVerbatim, Verbatim, InSome;
    ShiftedJoins(cfg.chunkSize, out, subs, inner, p);
  }

  /** The chunks of the next section keep their distances, and the first of them carries no header unless it starts later. */
  lemma ShiftedJoins(chunkSize: int, out: seq<Chunk>, subs: seq<Chunk>, inner: seq<Chunk>, p: nat)
    requires Separate(chunkSize, out) && HeadersApart(chunkSize, inner) && |subs| == |inner|
    requires forall i :: 0 <= i < |out| ==> out[i].end <= p
    requires forall i :: 0 <= i < |subs| ==> subs[i] == Shifted(inner[i], p, subs[i].contextHeader, subs[i].seqNo)
    ensures Separate(chunkSize, out + subs)
  {
    var all := out + subs;
    forall i | 0 < i < |all| ensures NeverJoins(chunkSize, all[i - 1], all[i]) {
      if i >= |out| {
        var j := i - |out|;
        if inner[j].synthetic > 0 {
          assert Apart(chunkSize, Last(inner[..j]), inner[j].start, |inner[j].content|);
          assert j > 0 ==> inner[..j][j - 1] == inner[j - 1];
        }
      }
    }
  }

  lemma FittingOk(lex: Lexicon, text: string, cfg: Config, primary: nat, out: seq<Chunk>, a: nat, b: nat, p: nat, q: nat, seed: Stack)
    requires Sectioned(lex, text, cfg, primary, out, p) && |Crumb(seed, 6)| + 2 + q - p <= cfg.chunkSize
    requires var ls := Split(text); a < b <= |ls| && p == LineStart(ls, a) < q <= |text| && IsSection(ls, primary, a, b)
    requires q == EndBefore(text, b) && (b < |Split(text)| ==> IsPrimary(Split(text), primary, b))
    requires SectionLines(Split(text), a, b, Split(text[p..q])) && seed == OpenedStack(lex, Split(text), primary, a)
    requires a == 0 || IsPrimary(Split(text), primary, a)
    ensures Sectioned(lex, text, cfg, primary, out + [Chunk(text[p..q], Crumb(seed, 6), |out|, p, q, None, 0)], q)
  {
    hide ContextOk, Split, LineStart, IsSection, OpenedStack, Crumb, SectionLines, IsPrimary, Uncrossed, EndBefore;
    var c := Chunk(text[p..q], Crumb(seed, 6), |out|, p, q, None, 0);
    FittingContext(lex, text, primary, cfg.chunkSize, a, b, p, q, c);
    assert c.content[0..] == c.content;
    InsideSection(text, primary, a, b, p, q);
    FittingMore(lex, text, cfg, primary, out, c, p, q);
  }

  lemma FittingMore(lex: Lexicon, text: string, cfg: Config, primary: nat, out: seq<Chunk>, c: Chunk, p: nat, q: nat)
    requires Sectioned(lex, text, cfg, primary, out, p) && p <= q <= |text|
    requires TierChunk(lex, text, cfg, primary, q, c) && c.seqNo == |out| && c.synthetic == 0 && c.start == p && c.end == q
    ensures Sectioned(lex, text, cfg, primary, out + [c], q)
  {
    hide ContextOk, Verbatim, Separate, Uncrossed;
    PlainJoins(cfg.chunkSize, out, c);
    forall k | p <= k < q ensures InSome([c], k) {
      assert [c][0] == c;
    }
    SectionedMore(lex, text, cfg, primary, out, [c], p, q);
  }

  lemma PlainJoins(chunkSize: int, out: seq<Chunk>, c: Chunk)
    requires Separate(chunkSize, out) && c.synthetic == 0
    ensures Separate(chunkSize, out + [c])
  {
    var all := out + [c];
    forall i | 0 < i < |all| ensures NeverJoins(chunkSize, all[i - 1], all[i]) {
      if i < |out| { assert NeverJoins(chunkSize, out[i - 1], out[i]); }
    }
  }

  lemma FittingContext(lex: Lexicon, text: string, primary: nat, chunkSize: int, a: nat, b: nat, p: nat, q: nat, c: Chunk)
    requires var ls := Split(text); a < b <= |ls| && p == LineStart(ls, a) < q <= |text| && IsSection(ls, primary, a, b)
    requires q == EndBefore(text, b) && (b < |Split(text)| ==> IsPrimary(Split(text), primary, b))
    requires SectionLines(Split(text), a, b, Split(text[p..q]))
    requires a == 0 || IsPrimary(Split(text), primary, a)
    requires c.start == p && c.contextHeader == Crumb(OpenedStack(lex, Split(text), primary, a), 6)
    requires |c.contextHeader| + 2 + q - p <= chunkSize
    ensures ContextOk(lex, text, primary, chunkSize, c)
  {
    hide Split, GlobalCrumb, Crumb, LineStart, LevelAt, OpenedStack, LinesUpTo, History, EndBefore, FirstSection;
    var ls := Split(text);
    SectionOpensWith(lex, text, primary, a, b, p, q);
    LaterStart(ls, a);
    if a == 0 {
      FirstSectionIs(text, primary, b);
      if LevelAt(ls, 0) > primary {
        EmptySeed(lex, ls, primary);
      }
    }
  }

  lemma LaterStart(ls: seq<string>, a: nat)
    requires a < |ls|
    ensures LineStart(ls, a) == 0 <==> a == 0
  {
    LineStartMonotone(ls, 0, a);
  }

  /** At its start, a section whose first line is no sub-heading has the breadcrumb of its opening. */
  lemma SectionOpensWith(lex: Lexicon, text: string, primary: nat, a: nat, b: nat, p: nat, q: nat)
    requires var ls := Split(text); a < b <= |ls| && p == LineStart(ls, a) < q <= |text| && IsSection(ls, primary, a, b)
    requires SectionLines(Split(text), a, b, Split(text[p..q]))
    ensures LevelAt(Split(text), a) <= primary ==> GlobalCrumb(lex, text, p) == Crumb(OpenedStack(lex, Split(text), primary, a), 6)
  {
    hide Split, GlobalCrumb, Crumb, LineStart, LevelAt, OpenedStack, LinesUpTo, SubStack, Observed;
    var ls, sec := Split(text), Split(text[p..q]);
    var seed := OpenedStack(lex, ls, primary, a);
    CrumbInSection(lex, text, primary, a, b, p, q, 0);
    FirstLineOnly(sec);
    SectionFences(ls, a, b, sec, 0);
    SubStackNext(lex, sec, primary, seed, 0);
  }

  lemma FirstLineOnly(sec: seq<string>)
    requires sec != []
    ensures LinesUpTo(sec, 0) == 1
  {
    LinesUpToIs(sec, 0, 1);
  }

  lemma EmptySeed(lex: Lexicon, ls: seq<string>, primary: nat)
    requires ls != [] && !IsPrimary(ls, primary, 0)
    ensures Crumb(OpenedStack(lex, ls, primary, 0), 6) == ""
  {
    hide LevelAt;
    CrumbBeyond(EMPTY_STACK, 0, 6);
  }

  // ---- splitByHeadingsImpl --------------------------------------------------

  /** The section text[p..q], which begins on line a, fits one chunk with its breadcrumb. */
  predicate SectionFits(lex: Lexicon, text: string, primary: nat, a: nat, p: nat, q: nat, chunkSize: int)
    requires a < |Split(text)|
  {
    |Crumb(OpenedStack(lex, Split(text), primary, a), 6)| + 2 + q - p <= chunkSize
  }

  /** A section's chunks: one with its whole text when that fits, else what the legacy splitter makes of it, in place. */
  ghost predicate SectionGroup(lex: Lexicon, text: string, cfg: Config, primary: nat, a: nat, p: nat, q: nat, g: seq<Chunk>)
    requires lex.Valid() && a < |Split(text)| && p <= q <= |text|
  {
    if p == q then g == []
    else if SectionFits(lex, text, primary, a, p, q, cfg.chunkSize) then
      |g| == 1 && g[0].start == p && g[0].end == q && g[0].content == text[p..q]
    else exists inner, units {:trigger SplitOk(lex, text[p..q], cfg, units, inner)} ::
      && SplitOk(lex, text[p..q], cfg, units, inner) && |g| == |inner|
      && forall i :: 0 <= i < |g| ==> g[i] == Shifted(inner[i], p, g[i].contextHeader, g[i].seqNo)
  }

  /** The chunks of each section, in the order of the sections. */
  ghost predicate SectionGroups(lex: Lexicon, text: string, cfg: Config, primary: nat, idx: seq<nat>, groups: seq<seq<Chunk>>, n: nat)
    requires lex.Valid()
  {
    && |groups| == n <= |idx| && (forall i :: 0 <= i < |idx| ==> idx[i] < |Split(text)|)
    && forall k :: 0 <= k < n ==> SectionGroupAt(lex, text, cfg, primary, idx, k, groups[k])
  }

  ghost predicate SectionGroupAt(lex: Lexicon, text: string, cfg: Config, primary: nat, idx: seq<nat>, k: nat, g: seq<Chunk>)
    requires lex.Valid() && k < |idx| && forall i :: 0 <= i < |idx| ==> idx[i] < |Split(text)|
  {
    var p, q := SectionStart(text, Split(text), idx, k), SectionStart(text, Split(text), idx, k + 1);
    p <= q <= |text| && SectionGroup(lex, text, cfg, primary, idx[k], p, q, g)
  }

  lemma EmptyGroup(lex: Lexicon, text: string, cfg: Config, primary: nat, a: nat, p: nat)
    requires lex.Valid() && a < |Split(text)| && p <= |text|
    ensures SectionGroup(lex, text, cfg, primary, a, p, p, [])
  {
    hide Split;
  }

  lemma WholeGroup(lex: Lexicon, text: string, cfg: Config, primary: nat, a: nat, p: nat, q: nat, c: Chunk)
    requires lex.Valid() && a < |Split(text)| && p < q <= |text|
    requires |Crumb(OpenedStack(lex, Split(text), primary, a), 6)| + 2 + q - p <= cfg.chunkSize
    requires c.start == p && c.end == q && c.content == text[p..q]
    ensures SectionGroup(lex, text, cfg, primary, a, p, q, [c])
  {
    hide Split, SplitOk, Crumb, OpenedStack;
  }

  lemma OversizedGroup(lex: Lexicon, text: string, cfg: Config, primary: nat, seed: Stack, a: nat, p: nat, q: nat, startSeq: nat, subs: seq<Chunk>,
                       inner: seq<Chunk>, units: seq<SplitUnit>)
    requires lex.Valid() && a < |Split(text)| && p < q <= |text|
    requires |Crumb(OpenedStack(lex, Split(text), primary, a), 6)| + 2 + q - p > cfg.chunkSize
    requires SplitOk(lex, text[p..q], cfg, units, inner) && |subs| == |inner|
    requires forall i :: 0 <= i < |subs| ==> SubOf(lex, Split(text[p..q]), primary, seed, p, inner[i], startSeq + i, subs[i])
    ensures SectionGroup(lex, text, cfg, primary, a, p, q, subs)
  {
    hide Split, SplitOk, SubCrumb, LinesUpTo, Crumb, OpenedStack;
  }

  /** The chunks of a section that is not empty, lines a to b of the document. */
  method SectionChunks(lex: Lexicon, text: string, cfg: Config, primary: nat, sectionStart: HeadingHierarchy, breadcrumb: string, out: seq<Chunk>,
                       ghost a: nat, ghost b: nat, p: nat, q: nat)
    returns (out': seq<Chunk>, ghost group: seq<Chunk>)
    requires lex.Valid() && cfg == EnsureDefaults(lex, cfg) && sectionStart.Valid() && breadcrumb == Crumb(sectionStart.stack, 6)
    requires Sectioned(lex, text, cfg, primary, out, p) && a < b <= |Split(text)|
    requires p == LineStart(Split(text), a) < q <= |text| && IsSection(Split(text), primary, a, b)
    requires q == EndBefore(text, b) && (b < |Split(text)| ==> IsPrimary(Split(text), primary, b))
    requires SectionLines(Split(text), a, b, Split(text[p..q])) && sectionStart.stack == OpenedStack(lex, Split(text), primary, a)
    requires a == 0 || IsPrimary(Split(text), primary, a)
    ensures Sectioned(lex, text, cfg, primary, out', q)
    ensures out' == out + group && SectionGroup(lex, text, cfg, primary, a, p, q, group)
  {
    hide Split, Sectioned, OpenedStack, HeadingLevel, Crumb, LineStart, LevelAt, IsSection, SectionLines, SplitOk, EnsureDefaults, SubOf,
         SectionGroup, EndBefore, IsPrimary;
    var section := text[p..q];
    if |breadcrumb| + 2 + |section| <= cfg.chunkSize {
      FittingOk(lex, text, cfg, primary, out, a, b, p, q, sectionStart.stack);
      group := [Chunk(section, breadcrumb, |out|, p, q, None, 0)];
      WholeGroup(lex, text, cfg, primary, a, p, q, group[0]);
      out' := out + [Chunk(section, breadcrumb, |out|, p, q, None, 0)];
    } else {
      var subs: seq<Chunk>;
      ghost var inner: seq<Chunk>, units: seq<SplitUnit>;
      subs, inner, units := OversizedSection(lex, text, cfg, primary, sectionStart, breadcrumb, p, q, |out|);
      OversizedOk(lex, text, cfg, primary, out, subs, inner, units, a, b, p, q, sectionStart.stack);
      OversizedGroup(lex, text, cfg, primary, sectionStart.stack, a, p, q, |out|, subs, inner, units);
      out', group := out + subs, subs;
    }
  }

  /** The hierarchy before section k reflects every heading above it. */
  method SectionStep(lex: Lexicon, text: string, cfg: Config, primary: nat, hierarchy: HeadingHierarchy, out: seq<Chunk>,
                     bounds: seq<HeadingBoundary>, ghost idx: seq<nat>, k: nat)
    returns (out': seq<Chunk>, ghost group: seq<Chunk>)
    requires lex.Valid() && cfg == EnsureDefaults(lex, cfg) && hierarchy.Valid()
    requires BoundsAre(Split(text), primary, |Split(text)|, bounds, idx) && k < |bounds|
    requires hierarchy.stack == StackAfter(EMPTY_STACK, History(lex, Split(text), 0, SectionLine(Split(text), idx, k)))
    requires Sectioned(lex, text, cfg, primary, out, SectionStart(text, Split(text), idx, k))
    modifies hierarchy
    ensures hierarchy.Valid()
    ensures hierarchy.stack == StackAfter(EMPTY_STACK, History(lex, Split(text), 0, SectionLine(Split(text), idx, k + 1)))
    ensures Sectioned(lex, text, cfg, primary, out', SectionStart(text, Split(text), idx, k + 1))
    ensures |bounds| == |idx| && (forall i :: 0 <= i < |idx| ==> idx[i] < |Split(text)|)
    ensures out' == out + group && SectionGroupAt(lex, text, cfg, primary, idx, k, group)
  {
    hide Split, Sectioned, History, StackAfter, Observed, OpenedStack, SubStack, HeadingLevel, Crumb, LineStart, LevelAt, IsSection,
         SectionLines, SplitOk, EnsureDefaults, Uncrossed, SubOf, SectionGroup, SectionFits;
    ghost var ls := Split(text);
    ghost var a, b := SectionLine(ls, idx, k), SectionLine(ls, idx, k + 1);
    SectionFacts(text, primary, bounds, idx, k);
    var start := bounds[k].runeStart;
    var endRune := if k + 1 < |bounds| then bounds[k + 1].runeStart else |text|;
    OpenedStackIs(lex, ls, primary, a);
    if bounds[k].line != "" {
      var level := hierarchy.Observe(lex, bounds[k].line);
    }
    assert hierarchy.stack == OpenedStack(lex, ls, primary, a);
    var breadcrumb := hierarchy.BreadcrumbWithHashes();
    var sectionStart := new HeadingHierarchy.Copy(hierarchy);
    var section := text[start..endRune];
    ObserveSubHeadings(lex, section, primary, hierarchy);
    StackAfterSection(lex, ls, primary, a, b, Split(section));
    out', group := out, [];
    if |section| == 0 {
      EmptyGroup(lex, text, cfg, primary, a, start);
      return;
    }
    out', group := SectionChunks(lex, text, cfg, primary, sectionStart, breadcrumb, out, a, b, start, endRune);
  }

  lemma NoGroups(lex: Lexicon, text: string, cfg: Config, primary: nat, bounds: seq<HeadingBoundary>, idx: seq<nat>)
    requires lex.Valid() && BoundsAre(Split(text), primary, |Split(text)|, bounds, idx)
    ensures SectionGroups(lex, text, cfg, primary, idx, [], 0) && Flatten<Chunk>([]) == []
  {
    hide Split, LevelAt;
  }

  lemma GroupsNext(lex: Lexicon, text: string, cfg: Config, primary: nat, idx: seq<nat>, groups: seq<seq<Chunk>>, k: nat, g: seq<Chunk>)
    requires lex.Valid() && SectionGroups(lex, text, cfg, primary, idx, groups, k) && k < |idx|
    requires SectionGroupAt(lex, text, cfg, primary, idx, k, g)
    ensures SectionGroups(lex, text, cfg, primary, idx, groups + [g], k + 1)
  {
    hide Split, SectionGroupAt;
  }

  lemma SectionsBegin(lex: Lexicon, text: string, cfg: Config, primary: nat, bounds: seq<HeadingBoundary>, idx: seq<nat>)
    requires BoundsAre(Split(text), primary, |Split(text)|, bounds, idx)
    ensures SectionStart(text, Split(text), idx, 0) == 0 && Sectioned(lex, text, cfg, primary, [], 0)
    ensures StackAfter(EMPTY_STACK, History(lex, Split(text), 0, SectionLine(Split(text), idx, 0))) == EMPTY_STACK
    ensures SectionStart(text, Split(text), idx, |idx|) == |text|
  {
    hide Split;
  }

  /** What the heading tier promises before coalescing: everything, and the global breadcrumb per chunk. */
  method SplitSections(lex: Lexicon, text: string, cfg: Config, primary: nat, bounds: seq<HeadingBoundary>, ghost idx: seq<nat>)
    returns (out: seq<Chunk>, ghost groups: seq<seq<Chunk>>)
    requires lex.Valid() && cfg == EnsureDefaults(lex, cfg)
    requires BoundsAre(Split(text), primary, |Split(text)|, bounds, idx)
    ensures Sectioned(lex, text, cfg, primary, out, |text|)
    ensures out == Flatten(groups) && SectionGroups(lex, text, cfg, primary, idx, groups, |idx|)
  {
    hide Split, Sectioned, History, StackAfter, SectionGroupAt, SectionGroups, EnsureDefaults, Flatten;
    NoGroups(lex, text, cfg, primary, bounds, idx);
    var hierarchy := new HeadingHierarchy();
    out, groups := [], [];
    SectionsBegin(lex, text, cfg, primary, bounds, idx);
    for k := 0 to |bounds|
      invariant hierarchy.Valid() && fresh(hierarchy)
      invariant hierarchy.stack == StackAfter(EMPTY_STACK, History(lex, Split(text), 0, SectionLine(Split(text), idx, k)))
      invariant Sectioned(lex, text, cfg, primary, out, SectionStart(text, Split(text), idx, k))
      invariant out == Flatten(groups) && SectionGroups(lex, text, cfg, primary, idx, groups, k)
    {
      ghost var group: seq<Chunk>;
      out, group := SectionStep(lex, text, cfg, primary, hierarchy, out, bounds, idx, k);
      FlattenSnoc(groups, group);
      GroupsNext(lex, text, cfg, primary, idx, groups, k, group);
      groups := groups + [group];
    }
  }

  // ---- the missing breadcrumb -------------------------------------------------

  /** A single heading makes an empty breadcrumb only when its text is empty. */
  lemma OneHeadingCrumb(h: Heading, n: nat)
    requires 1 <= h.level <= 6 && n <= 6
    ensures Crumb(Observed(EMPTY_STACK, h), n) == "" <==> n < h.level || h.text == ""
  {
    if n == 0 {
    } else {
      OneHeadingCrumb(h, n - 1);
    }
  }

  /** At offset 0 a document that opens with a heading has that heading as its breadcrumb. */
  lemma OpeningCrumb(lex: Lexicon, text: string)
    requires LevelAt(Split(text), 0) > 0
    ensures GlobalCrumb(lex, text, 0) == "" <==> lex.headingText(Split(text)[0]) == ""
  {
    assert LevelAt(Split(text), 0) <= 6;
    hide Split, LevelAt, Crumb, Observed;
    var ls := Split(text);
    var h := Heading(LevelAt(ls, 0), lex.headingText(ls[0]));
    FirstLineOnly(ls);
    assert History(lex, ls, 0, 0) == [] && History(lex, ls, 0, 1) == [h];
    assert [h][..0] == [];
    assert StackAfter(EMPTY_STACK, [h][..0]) == EMPTY_STACK;
    OneHeadingCrumb(h, 6);
  }

  /**
   * The chunk at the start of the document has the breadcrumb in force there exactly unless the
   * document is bare and its first heading has a text.
   */
  lemma FirstCrumbExactly(lex: Lexicon, text: string, cfg: Config, primary: nat, out: seq<Chunk>, i: nat)
    requires Sectioned(lex, text, cfg, primary, out, |text|) && i < |out| && out[i].start == 0
    ensures out[i].contextHeader == GlobalCrumb(lex, text, 0)
            <==> !(Bare(text, primary, cfg.chunkSize) && lex.headingText(Split(text)[0]) != "")
  {
    hide Split, LevelAt, GlobalCrumb;
    assert TierChunk(lex, text, cfg, primary, |text|, out[i]);
    if Bare(text, primary, cfg.chunkSize) {
      OpeningCrumb(lex, text);
    }
  }

  /**
   * What a caller can check: at the dominant level a document is bare exactly when it opens with
   * a heading, some shallower level occurs at least three times, and the first section is short.
   */
  lemma BareExactly(text: string, chunkSize: int)
    ensures var ls := Split(text);
            Bare(text, DominantLevel(ls), chunkSize) <==>
            && LevelAt(ls, 0) > 0 && (exists l :: 1 <= l < LevelAt(ls, 0) && Carries(ls, l))
            && FirstSection(text, DominantLevel(ls)) + 2 <= chunkSize
  {
    hide LevelAt, Split, FirstSection, DominantLevel, Carries;
    if LevelAt(Split(text), 0) > 0 {
      DeeperThanDominant(Split(text), 0);
    }
  }

  const BARE_TEXT: string := "## a\n# b\n# c\n# d"

  /** One line, then the rest. */
  lemma SplitNext(line: string, rest: string)
    requires NoNewline(line)
    ensures Split(line + "\n" + rest) == [line] + Split(rest)
  {
    var text := line + "\n" + rest;
    LineEndOf(line, "\n" + rest);
    assert text == line + ("\n" + rest);
    assert text[..|line|] == line && text[|line| + 1..] == rest;
  }

  lemma SplitOne(line: string)
    requires NoNewline(line)
    ensures Split(line) == [line]
  {
    LineEndOf(line, "");
    assert line + "" == line;
  }

  lemma BareLines()
    ensures Split(BARE_TEXT) == ["## a", "# b", "# c", "# d"]
  {
    hide Split;
    SplitOne("# d");
    SplitNext("# c", "# d");
    SplitNext("# b", "# c\n# d");
    SplitNext("## a", "# b\n# c\n# d");
    assert "# c" + "\n" + "# d" == "# c\n# d";
    assert "# b" + "\n" + "# c\n# d" == "# b\n# c\n# d";
    assert "## a" + "\n" + "# b\n# c\n# d" == BARE_TEXT;
  }

  lemma BareLevels(ls: seq<string>)
    requires ls == ["## a", "# b", "# c", "# d"]
    ensures LevelAt(ls, 0) == 2 && LevelAt(ls, 1) == LevelAt(ls, 2) == LevelAt(ls, 3) == 1
  {
    assert "## a"[0] == '#' && "# b"[0] == '#' && "# c"[0] == '#' && "# d"[0] == '#';
    assert !Fenced(ls, 0) && !Fenced(ls, 1) && !Fenced(ls, 2) && !Fenced(ls, 3);
  }

  /** Level 1 occurs three times, so it is the dominant one. */
  lemma BareDominant(ls: seq<string>)
    requires |ls| == 4 && LevelAt(ls, 0) == 2 && LevelAt(ls, 1) == LevelAt(ls, 2) == LevelAt(ls, 3) == 1
    ensures DominantLevel(ls) == 1
  {
    hide LevelAt;
    assert HeadingCount(ls, 1, 0) == 0 && HeadingCount(ls, 1, 1) == 0 && HeadingCount(ls, 1, 2) == 1;
    assert HeadingCount(ls, 1, 3) == 2 && HeadingCount(ls, 1, 4) == 3;
  }

  /** This text is bare for every chunk size from 7 on. */
  lemma BareTextIsBare(chunkSize: int)
    requires chunkSize >= 7
    ensures DominantLevel(Split(BARE_TEXT)) == 1 && Bare(BARE_TEXT, 1, chunkSize) && |Split(BARE_TEXT)| == 4
    ensures LevelAt(Split(BARE_TEXT), 0) > 0 && LevelAt(Split(BARE_TEXT), 1) == 1 && Split(BARE_TEXT)[0] == "## a"
  {
    BareLines();
    BareLevels(Split(BARE_TEXT));
    BareDominant(Split(BARE_TEXT));
    hide Split, LevelAt, DominantLevel;
    FirstSectionIs(BARE_TEXT, 1, 1);
  }

  lemma BareSections(ls: seq<string>, bounds: seq<HeadingBoundary>, idx: seq<nat>)
    requires |ls| == 4 && LevelAt(ls, 1) == 1 && BoundsAre(ls, 1, 4, bounds, idx)
    ensures |bounds| > 1
  {
    assert IsPrimary(ls, 1, 1) && 1 in idx;
  }

  /**
   * A text whose first chunk has no breadcrumb although a heading is in force there: this is what
   * SplitByHeadings promises of its output for it, at the level that the profiler finds.
   */
  lemma MissingCrumb(lex: Lexicon, cfg: Config, bounds: seq<HeadingBoundary>, idx: seq<nat>, sections: seq<Chunk>, out: seq<Chunk>)
    requires lex.headingText("## a") == "a" && cfg.chunkSize >= 7
    requires BoundsAre(Split(BARE_TEXT), DominantLevel(Split(BARE_TEXT)), |Split(BARE_TEXT)|, bounds, idx)
    requires |bounds| > 1 ==>
               && Sectioned(lex, BARE_TEXT, cfg, DominantLevel(Split(BARE_TEXT)), sections, |BARE_TEXT|)
               && out == if |sections| <= 1 then sections else Renumbered(MergeFrom(cfg.chunkSize, sections[0], sections[1..]))
    ensures exists i :: 0 <= i < |out| && out[i].start == 0 && out[i].contextHeader == "" && GlobalCrumb(lex, BARE_TEXT, 0) != ""
  {
    hide Split, LevelAt, GlobalCrumb, Bare, DominantLevel, MergeFrom, CommonPrefix, BoundsAre, Sectioned;
    BareTextIsBare(cfg.chunkSize);
    BareSections(Split(BARE_TEXT), bounds, idx);
    OpeningCrumb(lex, BARE_TEXT);
    SectionedContexts(lex, BARE_TEXT, cfg, 1, sections);
    if |sections| > 1 {
      MergedCovers(lex, BARE_TEXT, cfg, 1, sections, out);
      InputDescends(sections, 0);
      MergeDescends(cfg.chunkSize, sections, sections[0], 1);
    }
    assert BARE_TEXT[0] == '#' && InSome(out, 0);
    var i :| 0 <= i < |out| && out[i].start <= 0 < out[i].end;
    var j := Origin(sections, out, i, cfg);
    SectionedAt(lex, BARE_TEXT, cfg, 1, sections, j);
    SplitOfEmpty(out[i].contextHeader);
  }

  lemma SectionedAt(lex: Lexicon, text: string, cfg: Config, primary: nat, sections: seq<Chunk>, j: nat)
    requires Sectioned(lex, text, cfg, primary, sections, |text|) && j < |sections|
    ensures TierChunk(lex, text, cfg, primary, |text|, sections[j])
  {
  }

  /** A chunk of the output starts where some section chunk does, under leading lines of its breadcrumb. */
  lemma Origin(sections: seq<Chunk>, out: seq<Chunk>, i: nat, cfg: Config) returns (j: nat)
    requires i < |out|
    requires out == if |sections| <= 1 then sections else Renumbered(MergeFrom(cfg.chunkSize, sections[0], sections[1..]))
    requires |sections| > 1 ==> forall c :: c in MergeFrom(cfg.chunkSize, sections[0], sections[1..]) ==> Descends(sections, c)
    ensures j < |sections| && out[i].start == sections[j].start && LeadingLines(out[i].contextHeader, sections[j].contextHeader)
  {
    hide MergeFrom;
    if |sections| <= 1 {
      j := i;
    } else {
      var merged := MergeFrom(cfg.chunkSize, sections[0], sections[1..]);
      assert merged[i] in merged;
      assert Descends(sections, merged[i]);
      j :| 0 <= j < |sections| && merged[i].start == sections[j].start && LeadingLines(merged[i].contextHeader, sections[j].contextHeader);
    }
  }

  /** Nothing lost, a dense order. */
  predicate Complete(text: string, out: seq<Chunk>) {
    && Covers(text, out) && DenseSeq(out)
    && forall i :: 0 <= i < |out| ==> out[i].pages.None?
  }

  /** What the tiers promise: that, and nothing rewritten. */
  predicate TierOk(text: string, out: seq<Chunk>) {
    AllVerbatim(text, out) && Complete(text, out)
  }

  /** A chunk's breadcrumb is made of leading lines of the breadcrumb in force at its start. */
  predicate UnderGlobalCrumb(lex: Lexicon, text: string, c: Chunk) {
    LeadingLines(c.contextHeader, GlobalCrumb(lex, text, c.start))
  }

  lemma CoalescedOk(lex: Lexicon, text: string, cfg: Config, primary: nat, input: seq<Chunk>, out: seq<Chunk>)
    requires Sectioned(lex, text, cfg, primary, input, |text|) && 1 <= cfg.chunkSize
    requires out == if |input| <= 1 || cfg.chunkSize <= 0 then input else Renumbered(MergeFrom(cfg.chunkSize, input[0], input[1..]))
    ensures TierOk(text, out)
    ensures forall i :: 0 <= i < |out| ==> UnderGlobalCrumb(lex, text, out[i])
    ensures forall i :: 0 <= i < |out| ==> |out[i].content| <= Max(cfg.chunkSize, ABSOLUTE_MAX)
  {
    hide GlobalCrumb, LevelAt, Verbatim, MergeFrom;
    SectionedContexts(lex, text, cfg, primary, input);
    if |input| > 1 {
      var merged := MergeFrom(cfg.chunkSize, input[0], input[1..]);
      assert AllVerbatim(text, input[1..]);
      SeparateTail(cfg.chunkSize, input);
      MergeKeepsVerbatim(text, cfg.chunkSize, input[0], input[1..]);
      MergeSizes(cfg.chunkSize, input[0], input[1..], Max(cfg.chunkSize, ABSOLUTE_MAX));
      InputDescends(input, 0);
      MergeDescends(cfg.chunkSize, input, input[0], 1);
      forall i | 0 <= i < |out|
        ensures UnderGlobalCrumb(lex, text, out[i]) && |out[i].content| <= Max(cfg.chunkSize, ABSOLUTE_MAX)
      {
        assert merged[i] in merged;
        DescendsContext(lex, text, primary, input, merged[i]);
      }
      RenumberedVerbatim(text, merged);
      MergedCovers(lex, text, cfg, primary, input, out);
      MergedPages(cfg.chunkSize, input[0], input[1..]);
    }
  }

  lemma RenumberedVerbatim(text: string, merged: seq<Chunk>)
    ensures AllVerbatim(text, Renumbered(merged)) <==> AllVerbatim(text, merged)
  {
    forall i | 0 <= i < |merged| ensures Verbatim(text, Renumbered(merged)[i]) <==> Verbatim(text, merged[i]) {
    }
  }

  lemma {:induction false} MergedPages(chunkSize: int, cur: Chunk, rest: seq<Chunk>)
    requires cur.pages.None? && forall i :: 0 <= i < |rest| ==> rest[i].pages.None?
    ensures forall i :: 0 <= i < |MergeFrom(chunkSize, cur, rest)| ==> MergeFrom(chunkSize, cur, rest)[i].pages.None?
    decreases |rest|
  {
    hide ShouldJoin;
    if rest == [] {
    } else {
      if ShouldJoin(chunkSize, cur, rest[0]) {
        MergedPages(chunkSize, Joined(cur, rest[0]), rest[1..]);
      } else {
        MergedPages(chunkSize, rest[0], rest[1..]);
      }
    }
  }

  lemma SectionedContexts(lex: Lexicon, text: string, cfg: Config, primary: nat, input: seq<Chunk>)
    requires Sectioned(lex, text, cfg, primary, input, |text|)
    ensures TierOk(text, input) && Separate(cfg.chunkSize, input)
    ensures forall i :: 0 <= i < |input| ==> UnderGlobalCrumb(lex, text, input[i])
    ensures forall i :: 0 <= i < |input| ==> |input[i].content| <= Max(cfg.chunkSize, ABSOLUTE_MAX)
  {
    hide GlobalCrumb, LevelAt, Verbatim, Bare, Separate;
    forall i | 0 <= i < |input|
      ensures Verbatim(text, input[i]) && UnderGlobalCrumb(lex, text, input[i])
      ensures |input[i].content| <= Max(cfg.chunkSize, ABSOLUTE_MAX)
    {
      assert TierChunk(lex, text, cfg, primary, |text|, input[i]);
    }
  }

  lemma SeparateTail(chunkSize: int, input: seq<Chunk>)
    requires |input| > 1 && Separate(chunkSize, input)
    ensures NeverJoins(chunkSize, input[0], input[1..][0]) && Separate(chunkSize, input[1..])
  {
    assert NeverJoins(chunkSize, input[0], input[1]);
    forall i | 0 < i < |input[1..]| ensures NeverJoins(chunkSize, input[1..][i - 1], input[1..][i]) {
      assert NeverJoins(chunkSize, input[i], input[i + 1]);
    }
  }

  lemma DescendsContext(lex: Lexicon, text: string, primary: nat, input: seq<Chunk>, c: Chunk)
    requires Descends(input, c)
    requires forall i :: 0 <= i < |input| ==> UnderGlobalCrumb(lex, text, input[i])
    ensures UnderGlobalCrumb(lex, text, c)
  {
    hide GlobalCrumb, Split;
    var i :| 0 <= i < |input| && c.start == input[i].start && LeadingLines(c.contextHeader, input[i].contextHeader);
    assert UnderGlobalCrumb(lex, text, input[i]);
    SplitOfEmpty(c.contextHeader);
  }

  /** Only the empty text splits into a single empty line. */
  lemma SplitOfEmpty(s: string)
    ensures Split(s) <= Split("") ==> s == ""
  {
    JoinSplit(s);
  }

  lemma MergedCovers(lex: Lexicon, text: string, cfg: Config, primary: nat, input: seq<Chunk>, out: seq<Chunk>)
    requires |input| > 1 && AllVerbatim(text, input) && Covers(text, input)
    requires out == Renumbered(MergeFrom(cfg.chunkSize, input[0], input[1..]))
    ensures Covers(text, out)
  {
    var merged := MergeFrom(cfg.chunkSize, input[0], input[1..]);
    assert Verbatim(text, input[0]);
    forall i | 0 <= i < |input[1..]| ensures input[1..][i].start <= input[1..][i].end { assert Verbatim(text, input[i + 1]); }
    forall k | 0 <= k < |text| && !IsSpace(text[k]) ensures InSome(out, k) {
      assert input == [input[0]] + input[1..];
      InSomeAppend([input[0]], input[1..], k);
      MergeKeepsCover(cfg.chunkSize, input[0], input[1..], k);
      var i :| 0 <= i < |merged| && merged[i].start <= k < merged[i].end;
      assert out[i].start <= k < out[i].end;
    }
  }

  lemma SplitIsTier(lex: Lexicon, text: string, cfg: Config, units: seq<SplitUnit>, chunks: seq<Chunk>)
    requires lex.Valid() && SplitOk(lex, text, cfg, units, chunks)
    ensures TierOk(text, chunks)
    ensures forall i :: 0 <= i < |chunks| ==> |chunks[i].content| <= Max(cfg.chunkSize, ABSOLUTE_MAX)
  {
    hide ProtectedSpans.ProtectedRunes, SafeCut;
  }

  /** The sections at the dominant level, each split on its own. */
  ghost predicate SectionsSplit(lex: Lexicon, text: string, cfg: Config, idx: seq<nat>, groups: seq<seq<Chunk>>)
    requires lex.Valid()
  {
    && Sectioned(lex, text, cfg, DominantLevel(Split(text)), Flatten(groups), |text|)
    && SectionGroups(lex, text, cfg, DominantLevel(Split(text)), idx, groups, |idx|)
  }

  /** splitByHeadingsImpl: nothing is lost or rewritten, whatever the chunk size. */
  method SplitByHeadings(lex: Lexicon, text: string, cfg: Config)
    returns (out: seq<Chunk>, ghost bounds: seq<HeadingBoundary>, ghost idx: seq<nat>, ghost groups: seq<seq<Chunk>>, ghost units: seq<SplitUnit>)
    requires lex.Valid() && cfg == EnsureDefaults(lex, cfg)
    ensures text != "" && DominantLevel(Split(text)) > 0 ==>
              BoundsAre(Split(text), DominantLevel(Split(text)), |Split(text)|, bounds, idx)
    ensures text != "" && DominantLevel(Split(text)) > 0 && |bounds| > 1 ==>
              && SectionsSplit(lex, text, cfg, idx, groups)
              && (|Flatten(groups)| > 1 ==> Coalesced(cfg.chunkSize, Flatten(groups), out))
              && out == if |Flatten(groups)| <= 1 then Flatten(groups)
                        else Renumbered(MergeFrom(cfg.chunkSize, Flatten(groups)[0], Flatten(groups)[1..]))
    ensures text != "" && (DominantLevel(Split(text)) == 0 || |bounds| <= 1) ==> SplitOk(lex, text, cfg, units, out)
    ensures TierOk(text, out)
    ensures forall i :: 0 <= i < |out| ==> UnderGlobalCrumb(lex, text, out[i])
    ensures forall i :: 0 <= i < |out| ==> |out[i].content| <= Max(cfg.chunkSize, ABSOLUTE_MAX)
  {
    hide SplitOk, Sectioned, BoundsAre, GlobalCrumb, MergeFrom, Renumbered, Split, Verbatim, Covers, SectionGroups, Coalesced;
    bounds, idx, groups, units := [], [], [], [];
    if text == "" {
      out := [];
      EmptyTier();
      return;
    }
    var counts, total := ProfileHeadings(text);
    var primary := DominantHeadingLevel(counts, total, Split(text));
    if primary == 0 {
      out, units := SplitText(lex, text, cfg);
      SplitIsTier(lex, text, cfg, units, out);
      NoCrumbs(lex, text, cfg, units, out);
      return;
    }
    var starts: seq<HeadingBoundary>;
    starts, idx := FindBoundaries(text, primary);
    bounds := starts;
    if |starts| <= 1 {
      out, units := SplitText(lex, text, cfg);
      SplitIsTier(lex, text, cfg, units, out);
      NoCrumbs(lex, text, cfg, units, out);
      return;
    }
    var pieces;
    pieces, groups := SplitSections(lex, text, cfg, primary, starts, idx);
    out := CoalesceTiny(pieces, cfg.chunkSize);
    CoalescedOk(lex, text, cfg, primary, pieces, out);
  }

  lemma EmptyTier()
    ensures TierOk("", [])
  {
  }

  lemma NoCrumbs(lex: Lexicon, text: string, cfg: Config, units: seq<SplitUnit>, chunks: seq<Chunk>)
    requires lex.Valid() && SplitOk(lex, text, cfg, units, chunks)
    ensures forall i :: 0 <= i < |chunks| ==> UnderGlobalCrumb(lex, text, chunks[i])
  {
    hide GlobalCrumb;
  }
}
