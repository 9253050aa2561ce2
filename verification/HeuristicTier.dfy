/** The heuristic tier: packing blocks between structural boundaries. */
module HeuristicTier {
  import opened Numbers
  import opened Text
  import opened Chunks
  import opened Lexicons
  import opened Configs
  import opened ProtectedSpans
  import opened Units
  import opened Merge
  import opened HeadingTier
  import opened Sorting
  import opened Coalesce
  import opened Sequences

  // ---- boundaries -----------------------------------------------------------

  /** The bounds that fall strictly inside no span. */
  function KeptBounds(bounds: seq<int>, spans: seq<Span>): seq<int> {
    if bounds == [] then []
    else (if Inside(spans, bounds[0]) then [] else [bounds[0]]) + KeptBounds(bounds[1..], spans)
  }

  /** dropBoundsInsideSpans; spans are sorted, so the inner scan may stop early. */
  method DropBoundsInsideSpans(bounds: seq<int>, spans: seq<Span>) returns (out: seq<int>)
    requires Disjoint(spans)
    ensures out == KeptBounds(bounds, spans)
  {
    out := [];
    for i := 0 to |bounds|
      invariant out + KeptBounds(bounds[i..], spans) == KeptBounds(bounds, spans)
    {
      var inside := StrictlyInside(spans, bounds[i]);
      assert bounds[i..][0] == bounds[i] && bounds[i..][1..] == bounds[i + 1..];
      if !inside {
        out := out + [bounds[i]];
      }
    }
  }

  method StrictlyInside(spans: seq<Span>, b: int) returns (inside: bool)
    requires Disjoint(spans)
    ensures inside == Inside(spans, b)
  {
    for i := 0 to |spans|
      invariant forall k :: 0 <= k < i ==> !(spans[k].start < b < spans[k].end)
    {
      if spans[i].start >= b {
        return false;
      }
      if b < spans[i].end {
        return true;
      }
    }
    inside := false;
  }

  lemma {:induction false} KeptBoundsMembers(bounds: seq<int>, spans: seq<Span>, b: int)
    ensures b in KeptBounds(bounds, spans) <==> b in bounds && !Inside(spans, b)
  {
    if bounds == [] {
    } else {
      KeptBoundsMembers(bounds[1..], spans, b);
      assert bounds == [bounds[0]] + bounds[1..];
    }
  }

  lemma {:induction false} KeptBoundsAscend(bounds: seq<int>, spans: seq<Span>)
    requires Ascending(bounds)
    ensures Ascending(KeptBounds(bounds, spans))
  {
    if bounds == [] {
    } else {
      var b, rest := bounds[0], bounds[1..];
      KeptBoundsAscend(rest, spans);
      var r := KeptBounds(rest, spans);
      forall i | 0 <= i < |r| ensures b < r[i] {
        KeptBoundsMembers(rest, spans, r[i]);
        var k :| 0 <= k < |rest| && rest[k] == r[i];
      }
    }
  }

  // ---- packing --------------------------------------------------------------

  function MinChunk(chunkSize: int): int {
    Max(50, chunkSize / 4)
  }

  /**
   * The last bound before curEnd, when it is within twice the overlap of curEnd; otherwise the
   * start of the last line at or before the target; otherwise the target itself.
   */
  ghost predicate AlignedStart(runes: string, curEnd: int, overlap: int, bounds: seq<int>, start: int) {
    if overlap <= 0 then start == curEnd
    else
      var target := Max(curEnd - overlap, 0);
      var window := Max(curEnd - 2 * overlap, 0);
      if exists b :: b in bounds && window <= b < curEnd then
        start in bounds && window <= start < curEnd && forall b :: b in bounds && b < curEnd ==> b <= start
      else if exists i :: window < i <= target && i < |runes| && runes[i] == '\n' && target < |runes| then
        window < start - 1 <= target && runes[start - 1] == '\n' && forall i :: start <= i <= target ==> runes[i] != '\n'
      else start == target
  }

  method ApplyOverlapAligned(runes: string, curEnd: int, overlap: int, bounds: seq<int>) returns (start: int)
    requires 0 <= curEnd <= |runes| && forall b :: b in bounds ==> 0 <= b
    ensures AlignedStart(runes, curEnd, overlap, bounds, start)
    ensures Max(curEnd - 2 * overlap, 0) <= start <= curEnd || overlap < 0
  {
    if overlap <= 0 {
      return curEnd;
    }
    var target := curEnd - overlap;
    if target < 0 {
      target := 0;
    }
    var windowStart := curEnd - 2 * overlap;
    if windowStart < 0 {
      windowStart := 0;
    }
    var bestBound := -1;
    for k := 0 to |bounds|
      invariant bestBound == -1 || (bestBound in bounds && windowStart <= bestBound < curEnd)
      invariant forall j :: 0 <= j < k && windowStart <= bounds[j] < curEnd ==> bounds[j] <= bestBound
    {
      assert bounds[k] in bounds;
      if bounds[k] >= windowStart && bounds[k] < curEnd && bounds[k] > bestBound {
        bestBound := bounds[k];
      }
    }
    if bestBound >= 0 {
      return bestBound;
    }
    var i := target;
    while i > windowStart && i < |runes|
      invariant windowStart <= i <= target
      invariant target < |runes| ==> forall k :: i < k <= target ==> runes[k] != '\n'
      invariant target >= |runes| ==> i == target
      decreases i
    {
      if runes[i] == '\n' {
        return i + 1;
      }
      i := i - 1;
    }
    start := target;
  }

  /** How long a packed chunk may be. */
  function PackCap(chunkSize: int, overlap: int): int {
    chunkSize + Max(2 * overlap, MinChunk(chunkSize) - 1)
  }

  /**
   * The promises about chunks so far: verbatim, nothing lost before pos, each start no earlier
   * than the one before it, and no packed chunk above the cap.
   */
  ghost predicate Packed(text: string, cfg: Config, out: seq<Chunk>, pos: int) {
    && AllVerbatim(text, out) && DenseSeq(out)
    && (forall i :: 0 <= i < |out| ==> out[i].pages.None? && out[i].contextHeader == "" && out[i].end <= pos)
    && (forall k :: 0 <= k < pos && k < |text| && !IsSpace(text[k]) ==> InSome(out, k))
  }

  lemma PackedMore(text: string, cfg: Config, out: seq<Chunk>, subs: seq<Chunk>, p: int, q: int)
    requires Packed(text, cfg, out, p) && 0 <= p <= q <= |text| && AllVerbatim(text, subs)
    requires forall i :: 0 <= i < |subs| ==>
               subs[i].pages.None? && subs[i].contextHeader == "" && subs[i].end <= q && subs[i].seqNo == |out| + i
    requires forall k :: p <= k < q && !IsSpace(text[k]) ==> InSome(subs, k)
    ensures Packed(text, cfg, out + subs, q)
  {
    hide Verbatim, InSome;
    forall k | 0 <= k < q && !IsSpace(text[k]) ensures InSome(out + subs, k) {
      InSomeAppend(out, subs, k);
    }
  }

  /** appendChunk: the raw slice, unless it is empty or blank. */
  method AppendChunk(cfg: Config, out: seq<Chunk>, runes: string, start: int, end: int) returns (out': seq<Chunk>)
    requires 0 <= start <= |runes| && end <= |runes|
    ensures out' == if end <= start || Blank(runes[start..end]) then out
                    else out + [Chunk(runes[start..end], "", |out|, start, end, None, 0)]
    ensures forall p :: Packed(runes, cfg, out, p) && start <= p <= end ==> Packed(runes, cfg, out', end)
  {
    hide Packed;
    out' := out;
    if end <= start {
      forall p | Packed(runes, cfg, out, p) && start <= p <= end ensures Packed(runes, cfg, out', end) {
        assert p == end;
      }
      return;
    }
    var raw := runes[start..end];
    if Blank(raw) {
      forall p | Packed(runes, cfg, out, p) && start <= p <= end ensures Packed(runes, cfg, out', end) {
        BlankSkipped(runes, cfg, out, start, p, end);
      }
      return;
    }
    out' := out + [Chunk(raw, "", |out|, start, end, None, 0)];
    forall p | Packed(runes, cfg, out, p) && start <= p <= end ensures Packed(runes, cfg, out', end) {
      SliceAppended(runes, cfg, out, start, p, end);
    }
  }

  lemma BlankSkipped(text: string, cfg: Config, out: seq<Chunk>, start: int, p: int, end: int)
    requires 0 <= start <= p <= end <= |text| && Packed(text, cfg, out, p) && Blank(text[start..end])
    ensures Packed(text, cfg, out, end)
  {
    forall k | p <= k < end ensures IsSpace(text[k]) {
      assert text[start..end][k - start] == text[k];
    }
  }

  lemma SliceAppended(text: string, cfg: Config, out: seq<Chunk>, start: int, p: int, end: int)
    requires 0 <= start <= p <= end <= |text| && start < end && Packed(text, cfg, out, p)
    ensures Packed(text, cfg, out + [Chunk(text[start..end], "", |out|, start, end, None, 0)], end)
  {
    var c := Chunk(text[start..end], "", |out|, start, end, None, 0);
    assert c.content[0..] == c.content;
    forall k | p <= k < end ensures InSome([c], k) {
      assert [c][0] == c;
    }
    PackedMore(text, cfg, out, [c], p, end);
  }

  /** appendOversizeBlock: the legacy splitter on the block, shifted into place. */
  method AppendOversizeBlock(lex: Lexicon, cfg: Config, out: seq<Chunk>, runes: string, start: int, end: int) returns (out': seq<Chunk>)
    requires lex.Valid() && cfg == EnsureDefaults(lex, cfg) && 0 <= start < end <= |runes| && Packed(runes, cfg, out, start)
    ensures Packed(runes, cfg, out', end)
    ensures out <= out' && forall i :: |out| <= i < |out'| ==> start <= out'[i].start && out'[i].end <= end
    ensures PieceGroup(lex, runes, cfg, Oversize(start, end), out'[|out|..])
  {
    hide SplitOk, EnsureDefaults, Packed, PieceGroup;
    var content := runes[start..end];
    ghost var units: seq<SplitUnit>;
    var inner: seq<Chunk>;
    inner, units := SplitText(lex, content, cfg);
    var subs: seq<Chunk> := [];
    InnerHeaders(lex, content, cfg, units, inner);
    for i := 0 to |inner|
      invariant |subs| == i
      invariant forall j :: 0 <= j < i ==> subs[j] == Shifted(inner[j], start, "", |out| + j)
    {
      var s := inner[i];
      subs := subs + [Chunk(s.content, s.contextHeader, |out| + i, start + s.start, start + s.end, None, s.synthetic)];
    }
    out' := out + subs;
    assert out'[|out|..] == subs;
    BlockGroup(lex, runes, cfg, Oversize(start, end), out, subs, inner, units);
    InnerCovers(lex, runes, cfg, units, inner, subs, start, end);
    BlockOk(lex, runes, cfg, units, inner, subs, start, end);
    PackedMore(runes, cfg, out, subs, start, end);
  }

  lemma InnerHeaders(lex: Lexicon, content: string, cfg: Config, units: seq<SplitUnit>, inner: seq<Chunk>)
    requires lex.Valid() && SplitOk(lex, content, cfg, units, inner)
    ensures forall i :: 0 <= i < |inner| ==> inner[i].contextHeader == ""
  {
    hide SafeCut;
  }

  lemma BlockOk(lex: Lexicon, text: string, cfg: Config, units: seq<SplitUnit>, inner: seq<Chunk>, subs: seq<Chunk>, p: int, q: int)
    requires lex.Valid() && 0 <= p <= q <= |text| && SplitOk(lex, text[p..q], cfg, units, inner) && |subs| == |inner|
    requires forall i :: 0 <= i < |subs| ==> subs[i] == Shifted(inner[i], p, "", subs[i].seqNo)
    ensures AllVerbatim(text, subs) && forall i :: 0 <= i < |subs| ==> p <= subs[i].start && subs[i].end <= q
  {
    hide SafeCut;
    forall i | 0 <= i < |subs| ensures Verbatim(text, subs[i]) && p <= subs[i].start && subs[i].end <= q {
      assert Verbatim(text[p..q], inner[i]);
      ShiftedVerbatim(text, p, q, inner[i], "", subs[i].seqNo);
    }
  }

  /** Ascending bounds from 0 to n; only the closing sentinel may repeat its predecessor. */
  predicate PackBounds(bounds: seq<int>, n: int) {
    && |bounds| >= 2 && bounds[0] == 0 && bounds[|bounds| - 1] == n
    && (forall i, j :: 0 <= i < j < |bounds| - 1 ==> bounds[i] < bounds[j])
    && (forall i :: 0 <= i < |bounds| ==> 0 <= bounds[i] <= n)
  }

  /** The stretches the packer works through: packed chunks and blocks no chunk can hold. */
  datatype Piece = Pack(start: int, end: int) | Oversize(start: int, end: int)

  /** Packing stopped here because the next block would overflow a chunk that is large enough. */
  predicate Overflows(bounds: seq<int>, cfg: Config, p: Piece) {
    p.end - p.start >= 50 && p.end - p.start >= cfg.chunkSize / 4 &&
    exists j :: 0 <= j < |bounds| - 1 && bounds[j] == p.end && bounds[j + 1] - p.start > cfg.chunkSize
  }

  /**
   * A chunk from start on, after pieces up to from, need not stop at bound j: the block behind it
   * fits a chunk, and it still fits this one, or this one is still too small.
   */
  predicate Quiet(bounds: seq<int>, cfg: Config, start: int, from: int, j: nat)
    requires j < |bounds| - 1
  {
    from <= bounds[j] ==>
      && bounds[j + 1] - bounds[j] <= cfg.chunkSize
      && (from < bounds[j] ==> bounds[j + 1] - start <= cfg.chunkSize || bounds[j] - start < 50 || bounds[j] - start < cfg.chunkSize / 4)
  }

  /** A packed piece passes over no bound where it had to stop. */
  predicate Unbroken(bounds: seq<int>, cfg: Config, from: int, p: Piece) {
    p.Pack? ==> forall j :: 0 <= j < |bounds| - 1 && bounds[j] < p.end ==> Quiet(bounds, cfg, p.start, from, j)
  }

  /** The block between two neighbouring bounds. */
  predicate Block(bounds: seq<int>, start: int, end: int) {
    exists j :: 0 <= j < |bounds| - 1 && bounds[j] == start && bounds[j + 1] == end
  }

  ghost predicate PieceOk(bounds: seq<int>, cfg: Config, p: Piece) {
    match p
    case Pack(start, end) => start < end && end in bounds && end - start <= PackCap(cfg.chunkSize, cfg.chunkOverlap)
    case Oversize(start, end) => Block(bounds, start, end) && end - start > cfg.chunkSize
  }

  /** b follows a: no gap, never backwards, and overlapping only after an overflow. */
  ghost predicate Follows(runes: string, bounds: seq<int>, cfg: Config, a: Piece, b: Piece) {
    && a.start <= b.start <= a.end <= b.end
    && if a.Pack? && b.Pack? then Overflows(bounds, cfg, a) && AlignedStart(runes, a.end, cfg.chunkOverlap, bounds, b.start)
       else b.start == a.end
  }

  ghost predicate Chained(runes: string, bounds: seq<int>, cfg: Config, ps: seq<Piece>) {
    && (forall i :: 0 <= i < |ps| ==> PieceOk(bounds, cfg, ps[i]) && Unbroken(bounds, cfg, LastEnd(ps[..i]), ps[i]))
    && (forall i :: 0 <= i < |ps| - 1 ==> Follows(runes, bounds, cfg, ps[i], ps[i + 1]))
    && (ps != [] ==> ps[0].start == 0)
  }

  /** Where the pending stretch starts after the pieces so far. */
  ghost predicate Continues(runes: string, bounds: seq<int>, cfg: Config, ps: seq<Piece>, chunkStart: int, curEnd: int, more: bool) {
    if ps == [] then chunkStart == 0
    else
      var a := ps[|ps| - 1];
      && a.start <= chunkStart <= a.end <= curEnd
      && if a.Pack? then
           Overflows(bounds, cfg, a) && AlignedStart(runes, a.end, cfg.chunkOverlap, bounds, chunkStart) && (more ==> a.end < curEnd)
         else chunkStart == a.end
  }

  lemma ChainMore(runes: string, bounds: seq<int>, cfg: Config, ps: seq<Piece>, p: Piece)
    requires Chained(runes, bounds, cfg, ps) && PieceOk(bounds, cfg, p) && Unbroken(bounds, cfg, LastEnd(ps), p)
    requires if ps == [] then p.start == 0 else Follows(runes, bounds, cfg, ps[|ps| - 1], p)
    ensures Chained(runes, bounds, cfg, ps + [p])
  {
    hide Follows, PieceOk, Unbroken, LastEnd;
    var qs := ps + [p];
    forall i | 0 <= i < |qs| ensures PieceOk(bounds, cfg, qs[i]) && Unbroken(bounds, cfg, LastEnd(qs[..i]), qs[i]) {
      assert qs[..i] == ps[..i];
    }
    forall i | 0 <= i < |qs| - 1 ensures Follows(runes, bounds, cfg, qs[i], qs[i + 1]) {
      if i < |ps| - 1 { assert Follows(runes, bounds, cfg, ps[i], ps[i + 1]); }
    }
  }

  function LastEnd(ps: seq<Piece>): int {
    if ps == [] then 0 else ps[|ps| - 1].end
  }

  /** A chunk is a packed piece whole, with nothing injected, or lies inside an oversize block. */
  predicate Within(c: Chunk, p: Piece) {
    match p
    case Pack(start, end) => c.start == start && c.end == end && c.synthetic == 0
    case Oversize(start, end) => start <= c.start && c.end <= end
  }

  ghost predicate InPiece(c: Chunk, ps: seq<Piece>) {
    exists p :: p in ps && Within(c, p)
  }

  ghost predicate FromPieces(out: seq<Chunk>, ps: seq<Piece>) {
    forall i :: 0 <= i < |out| ==> InPiece(out[i], ps)
  }

  lemma StillInPiece(c: Chunk, ps: seq<Piece>, p: Piece)
    requires InPiece(c, ps) || Within(c, p)
    ensures InPiece(c, ps + [p])
  {
    if Within(c, p) {
      assert (ps + [p])[|ps|] == p;
    } else {
      var q :| q in ps && Within(c, q);
      assert q in ps + [p];
    }
  }

  lemma FromMore(out: seq<Chunk>, subs: seq<Chunk>, ps: seq<Piece>, p: Piece)
    requires FromPieces(out, ps) && forall i :: 0 <= i < |subs| ==> Within(subs[i], p)
    ensures FromPieces(out + subs, ps + [p])
  {
    hide Within, InPiece;
    var cs := out + subs;
    forall i | 0 <= i < |cs| ensures InPiece(cs[i], ps + [p]) {
      assert i < |out| ==> InPiece(out[i], ps);
      assert i >= |out| ==> Within(subs[i - |out|], p);
      StillInPiece(cs[i], ps, p);
    }
  }

  /** The chunks of a piece: its text, unless blank; for a block no chunk can hold, what the legacy splitter makes of it, in place. */
  ghost predicate PieceGroup(lex: Lexicon, runes: string, cfg: Config, p: Piece, g: seq<Chunk>)
    requires lex.Valid()
  {
    && 0 <= p.start <= p.end <= |runes|
    && var piece := runes[p.start..p.end];
       if p.Pack? then
         if Blank(piece) then g == [] else |g| == 1 && g[0].content == piece && g[0].start == p.start && g[0].end == p.end
       else exists inner, units {:trigger SplitOk(lex, piece, cfg, units, inner)} ::
         && SplitOk(lex, piece, cfg, units, inner) && |g| == |inner|
         && forall i :: 0 <= i < |g| ==> g[i] == Shifted(inner[i], p.start, "", g[i].seqNo)
  }

  /** The chunks of each piece, in order. */
  ghost predicate PieceGroups(lex: Lexicon, runes: string, cfg: Config, ps: seq<Piece>, out: seq<Chunk>, groups: seq<seq<Chunk>>)
    requires lex.Valid()
  {
    && |groups| == |ps| && out == Flatten(groups)
    && forall k :: 0 <= k < |ps| ==> PieceGroup(lex, runes, cfg, ps[k], groups[k])
  }

  lemma GroupsMore(lex: Lexicon, runes: string, cfg: Config, ps: seq<Piece>, out: seq<Chunk>, groups: seq<seq<Chunk>>, p: Piece, g: seq<Chunk>)
    requires lex.Valid() && PieceGroups(lex, runes, cfg, ps, out, groups) && PieceGroup(lex, runes, cfg, p, g)
    ensures PieceGroups(lex, runes, cfg, ps + [p], out + g, groups + [g])
  {
    hide PieceGroup;
    FlattenSnoc(groups, g);
  }

  /** The packing loop's invariant before bound i. */
  ghost predicate Packing(runes: string, bounds: seq<int>, cfg: Config, i: nat, out: seq<Chunk>, chunkStart: int, curEnd: int, ps: seq<Piece>) {
    && 0 < i <= |bounds| && curEnd == bounds[i - 1]
    && 0 <= chunkStart <= LastEnd(ps) <= curEnd <= |runes|
    && curEnd - chunkStart <= PackCap(cfg.chunkSize, cfg.chunkOverlap)
    && (forall j :: 0 <= j < i - 1 ==> Quiet(bounds, cfg, chunkStart, LastEnd(ps), j))
    && (i < |bounds| ==> chunkStart == curEnd || exists j :: 0 <= j < i && chunkStart <= bounds[j] < curEnd)
    && Packed(runes, cfg, out, LastEnd(ps)) && FromPieces(out, ps)
    && Chained(runes, bounds, cfg, ps) && Continues(runes, bounds, cfg, ps, chunkStart, curEnd, i < |bounds|)
  }

  lemma PackingFacts(runes: string, bounds: seq<int>, cfg: Config, i: nat, out: seq<Chunk>, chunkStart: int, curEnd: int, ps: seq<Piece>)
    requires Packing(runes, bounds, cfg, i, out, chunkStart, curEnd, ps)
    ensures 0 < i <= |bounds| && curEnd == bounds[i - 1] && 0 <= chunkStart <= LastEnd(ps) <= curEnd <= |runes|
    ensures Packed(runes, cfg, out, LastEnd(ps)) && FromPieces(out, ps) && Chained(runes, bounds, cfg, ps)
    ensures i < |bounds| ==> chunkStart == curEnd || exists j :: 0 <= j < i && chunkStart <= bounds[j] < curEnd
  {
  }

  /** One bound of the packing loop. */
  method PackStep(lex: Lexicon, cfg: Config, runes: string, bounds: seq<int>, i: nat, out: seq<Chunk>, chunkStart: int, curEnd: int, ghost ps: seq<Piece>,
                  ghost groups: seq<seq<Chunk>>)
    returns (out': seq<Chunk>, chunkStart': int, curEnd': int, ghost ps': seq<Piece>, ghost groups': seq<seq<Chunk>>)
    requires lex.Valid() && cfg == EnsureDefaults(lex, cfg) && PackBounds(bounds, |runes|) && i < |bounds|
    requires Packing(runes, bounds, cfg, i, out, chunkStart, curEnd, ps) && PieceGroups(lex, runes, cfg, ps, out, groups)
    ensures Packing(runes, bounds, cfg, i + 1, out', chunkStart', curEnd', ps') && PieceGroups(lex, runes, cfg, ps', out', groups')
  {
    hide Packing, Packed, AlignedStart, EnsureDefaults, Chained, FromPieces, PackBounds, PieceGroups;
    out', chunkStart', curEnd', ps', groups' := out, chunkStart, curEnd, ps, groups;
    PackingFacts(runes, bounds, cfg, i, out, chunkStart, curEnd, ps);
    var nextEnd := bounds[i];
    NextBound(bounds, |runes|, i);
    if nextEnd - curEnd > cfg.chunkSize {
      out', ps', groups' := FlushPending(lex, cfg, runes, bounds, i, out, chunkStart, curEnd, ps, groups);
      out', ps', groups' := PackOversize(lex, cfg, runes, bounds, i, out', ps', groups');
      curEnd', chunkStart' := nextEnd, nextEnd;
    } else {
      if nextEnd - chunkStart > cfg.chunkSize && curEnd - chunkStart >= MinChunk(cfg.chunkSize) {
        out', ps', groups' := FlushPending(lex, cfg, runes, bounds, i, out, chunkStart, curEnd, ps, groups);
        chunkStart' := ApplyOverlapAligned(runes, curEnd, cfg.chunkOverlap, bounds);
        NotBackwards(runes, bounds, cfg, i, chunkStart, curEnd, chunkStart');
        Overflowed(runes, bounds, cfg, i, out', chunkStart, curEnd, ps', chunkStart');
      } else {
        Extends(runes, bounds, cfg, i, out, chunkStart, curEnd, ps);
      }
      curEnd' := nextEnd;
    }
  }

  /** Closes the pending stretch, when there is one, and emits its slice unless blank. */
  method FlushPending(lex: Lexicon, cfg: Config, runes: string, bounds: seq<int>, i: nat, out: seq<Chunk>, chunkStart: int, curEnd: int,
                      ghost ps: seq<Piece>, ghost groups: seq<seq<Chunk>>)
    returns (out': seq<Chunk>, ghost ps': seq<Piece>, ghost groups': seq<seq<Chunk>>)
    requires lex.Valid() && PackBounds(bounds, |runes|) && Packing(runes, bounds, cfg, i, out, chunkStart, curEnd, ps)
    requires PieceGroups(lex, runes, cfg, ps, out, groups)
    ensures ps' == if curEnd > chunkStart then ps + [Pack(chunkStart, curEnd)] else ps
    ensures Chained(runes, bounds, cfg, ps') && LastEnd(ps') == curEnd
    ensures Packed(runes, cfg, out', curEnd) && FromPieces(out', ps') && PieceGroups(lex, runes, cfg, ps', out', groups')
  {
    hide Packing, Packed, Chained, FromPieces, PackBounds, PieceGroups;
    out', ps', groups' := out, ps, groups;
    PackingFacts(runes, bounds, cfg, i, out, chunkStart, curEnd, ps);
    if curEnd - chunkStart > 0 {
      out' := AppendChunk(cfg, out, runes, chunkStart, curEnd);
      PendingPiece(runes, bounds, cfg, i, out, chunkStart, curEnd, ps);
      ghost var p := Pack(chunkStart, curEnd);
      ghost var group := out'[|out|..];
      FromMore(out, group, ps, p);
      assert out' == out + group;
      GroupsMore(lex, runes, cfg, ps, out, groups, p, group);
      ps', groups' := ps + [p], groups + [group];
    }
  }

  /** The block between two bounds is larger than a chunk: it goes to the legacy splitter. */
  method PackOversize(lex: Lexicon, cfg: Config, runes: string, bounds: seq<int>, i: nat, out: seq<Chunk>, ghost ps: seq<Piece>,
                      ghost groups: seq<seq<Chunk>>)
    returns (out': seq<Chunk>, ghost ps': seq<Piece>, ghost groups': seq<seq<Chunk>>)
    requires lex.Valid() && cfg == EnsureDefaults(lex, cfg) && PackBounds(bounds, |runes|) && 0 < i < |bounds|
    requires PieceGroups(lex, runes, cfg, ps, out, groups)
    requires bounds[i] - bounds[i - 1] > cfg.chunkSize
    requires Chained(runes, bounds, cfg, ps) && LastEnd(ps) == bounds[i - 1]
    requires Packed(runes, cfg, out, bounds[i - 1]) && FromPieces(out, ps)
    ensures Packing(runes, bounds, cfg, i + 1, out', bounds[i], bounds[i], ps') && PieceGroups(lex, runes, cfg, ps', out', groups')
  {
    hide Packing, Packed, Chained, FromPieces, EnsureDefaults, PieceGroups, PieceGroup;
    SizePositive(lex, cfg);
    ghost var block := Oversize(bounds[i - 1], bounds[i]);
    OversizePiece(runes, bounds, cfg, ps, block, i);
    out' := AppendOversizeBlock(lex, cfg, out, runes, bounds[i - 1], bounds[i]);
    ps' := ps + [block];
    ghost var subs := out'[|out|..];
    forall k | 0 <= k < |subs| ensures Within(subs[k], block) {
      assert subs[k] == out'[|out| + k];
    }
    FromMore(out, subs, ps, block);
    assert out' == out + subs;
    GroupsMore(lex, runes, cfg, ps, out, groups, block, subs);
    groups' := groups + [subs];
    Skipped(runes, bounds, cfg, i, out', ps');
  }

  lemma SizePositive(lex: Lexicon, cfg: Config)
    requires cfg == EnsureDefaults(lex, cfg)
    ensures cfg.chunkSize >= 1 && cfg.chunkOverlap >= 0
  {
  }

  lemma Skipped(runes: string, bounds: seq<int>, cfg: Config, i: nat, out: seq<Chunk>, ps: seq<Piece>)
    requires PackBounds(bounds, |runes|) && i < |bounds| && cfg.chunkSize >= 1 && cfg.chunkOverlap >= 0
    requires ps != [] && ps[|ps| - 1].Oversize? && ps[|ps| - 1].start <= LastEnd(ps) == bounds[i]
    requires Chained(runes, bounds, cfg, ps) && Packed(runes, cfg, out, bounds[i]) && FromPieces(out, ps)
    ensures Packing(runes, bounds, cfg, i + 1, out, bounds[i], bounds[i], ps)
  {
    hide Packed, Chained, FromPieces;
  }

  /** After an overflow the next chunk starts at the aligned overlap. */
  lemma Overflowed(runes: string, bounds: seq<int>, cfg: Config, i: nat, out: seq<Chunk>, chunkStart: int, curEnd: int, ps: seq<Piece>, start: int)
    requires PackBounds(bounds, |runes|) && 0 < i < |bounds| && curEnd == bounds[i - 1] && cfg.chunkSize >= 1
    requires bounds[i] - curEnd <= cfg.chunkSize < bounds[i] - chunkStart && curEnd - chunkStart >= MinChunk(cfg.chunkSize)
    requires ps != [] && ps[|ps| - 1] == Pack(chunkStart, curEnd)
    requires Chained(runes, bounds, cfg, ps) && Packed(runes, cfg, out, curEnd) && FromPieces(out, ps)
    requires AlignedStart(runes, curEnd, cfg.chunkOverlap, bounds, start) && cfg.chunkOverlap >= 0
    requires Max(curEnd - 2 * cfg.chunkOverlap, 0) <= start <= curEnd && chunkStart <= start
    ensures Packing(runes, bounds, cfg, i + 1, out, start, bounds[i], ps)
  {
    hide Packed, Chained, FromPieces, AlignedStart;
    NextBound(bounds, |runes|, i);
    assert Overflows(bounds, cfg, ps[|ps| - 1]) by {
      assert bounds[(i - 1) + 1] - chunkStart > cfg.chunkSize;
    }
    if i + 1 < |bounds| {
      assert start <= bounds[i - 1] < bounds[i];
    }
  }

  /** The next block joins the pending stretch. */
  lemma Extends(runes: string, bounds: seq<int>, cfg: Config, i: nat, out: seq<Chunk>, chunkStart: int, curEnd: int, ps: seq<Piece>)
    requires PackBounds(bounds, |runes|) && i < |bounds| && Packing(runes, bounds, cfg, i, out, chunkStart, curEnd, ps)
    requires bounds[i] - curEnd <= cfg.chunkSize && cfg.chunkOverlap >= 0
    requires bounds[i] - chunkStart <= cfg.chunkSize || curEnd - chunkStart < MinChunk(cfg.chunkSize)
    ensures Packing(runes, bounds, cfg, i + 1, out, chunkStart, bounds[i], ps)
  {
    hide Packed, Chained, FromPieces, AlignedStart, Overflows, Quiet;
    NextBound(bounds, |runes|, i);
    PassedBound(bounds, cfg, chunkStart, LastEnd(ps), i - 1);
    if i + 1 < |bounds| {
      assert chunkStart <= bounds[i - 1] < bounds[i];
    }
  }

  lemma PassedBound(bounds: seq<int>, cfg: Config, start: int, from: int, j: nat)
    requires j + 1 < |bounds| && bounds[j + 1] - bounds[j] <= cfg.chunkSize
    requires bounds[j + 1] - start <= cfg.chunkSize || bounds[j] - start < MinChunk(cfg.chunkSize)
    ensures Quiet(bounds, cfg, start, from, j)
  {
  }

  lemma NextBound(bounds: seq<int>, n: int, i: nat)
    requires PackBounds(bounds, n) && 0 < i < |bounds|
    ensures bounds[i - 1] <= bounds[i] <= n && (i < |bounds| - 1 ==> bounds[i - 1] < bounds[i])
    ensures bounds[i] in bounds && bounds[i - 1] in bounds && forall b :: b in bounds ==> 0 <= b
  {
  }

  /** The pending stretch, closed at curEnd, extends the chain. */
  lemma PendingPiece(runes: string, bounds: seq<int>, cfg: Config, i: nat, out: seq<Chunk>, chunkStart: int, curEnd: int, ps: seq<Piece>)
    requires Packing(runes, bounds, cfg, i, out, chunkStart, curEnd, ps) && chunkStart < curEnd
    requires i < |bounds| || ps == [] || ps[|ps| - 1].end <= curEnd
    requires PackBounds(bounds, |runes|)
    ensures Chained(runes, bounds, cfg, ps + [Pack(chunkStart, curEnd)])
  {
    hide Packed, AlignedStart, Overflows, Quiet, Unbroken;
    assert bounds[i - 1] in bounds;
    PendingUnbroken(runes, bounds, cfg, i, out, chunkStart, curEnd, ps);
    ChainMore(runes, bounds, cfg, ps, Pack(chunkStart, curEnd));
  }

  /** A stretch that has passed no bound where it had to stop may be closed. */
  lemma PendingUnbroken(runes: string, bounds: seq<int>, cfg: Config, i: nat, out: seq<Chunk>, chunkStart: int, curEnd: int, ps: seq<Piece>)
    requires Packing(runes, bounds, cfg, i, out, chunkStart, curEnd, ps) && PackBounds(bounds, |runes|)
    ensures Unbroken(bounds, cfg, LastEnd(ps), Pack(chunkStart, curEnd))
  {
    hide Packed, FromPieces, Chained, Continues, Quiet, LastEnd;
    forall j | 0 <= j < |bounds| - 1 && bounds[j] < curEnd ensures Quiet(bounds, cfg, chunkStart, LastEnd(ps), j) {
      assert j < i - 1;
    }
  }

  lemma BlockGroup(lex: Lexicon, runes: string, cfg: Config, p: Piece, out: seq<Chunk>, subs: seq<Chunk>, inner: seq<Chunk>, units: seq<SplitUnit>)
    requires lex.Valid() && p.Oversize? && 0 <= p.start <= p.end <= |runes|
    requires SplitOk(lex, runes[p.start..p.end], cfg, units, inner) && |subs| == |inner|
    requires forall i :: 0 <= i < |inner| ==> subs[i] == Shifted(inner[i], p.start, "", |out| + i)
    ensures PieceGroup(lex, runes, cfg, p, subs)
  {
    hide SplitOk;
  }

  lemma OversizePiece(runes: string, bounds: seq<int>, cfg: Config, ps: seq<Piece>, block: Piece, i: nat)
    requires 0 < i < |bounds| && block == Oversize(bounds[i - 1], bounds[i]) && block.end - block.start > cfg.chunkSize >= 1
    requires Chained(runes, bounds, cfg, ps) && LastEnd(ps) == block.start
    ensures Chained(runes, bounds, cfg, ps + [block])
  {
    hide AlignedStart, Overflows;
    assert bounds[i] in bounds && bounds[i - 1] in bounds;
    if ps != [] {
      PieceForward(runes, bounds, cfg, ps);
    }
    ChainMore(runes, bounds, cfg, ps, block);
  }

  lemma PieceForward(runes: string, bounds: seq<int>, cfg: Config, ps: seq<Piece>)
    requires Chained(runes, bounds, cfg, ps) && ps != [] && cfg.chunkSize >= 1
    ensures ps[|ps| - 1].start <= ps[|ps| - 1].end
  {
    assert PieceOk(bounds, cfg, ps[|ps| - 1]);
  }

  /** Snapping to a bound, a line or the target never moves a chunk start backwards. */
  lemma NotBackwards(runes: string, bounds: seq<int>, cfg: Config, i: nat, chunkStart: int, curEnd: int, start: int)
    requires AlignedStart(runes, curEnd, cfg.chunkOverlap, bounds, start) && 0 < i < |bounds| && 0 <= curEnd
    requires exists j :: 0 <= j < i && chunkStart <= bounds[j] < curEnd
    ensures chunkStart <= start
  {
    var j :| 0 <= j < i && chunkStart <= bounds[j] < curEnd;
    assert bounds[j] in bounds;
  }

  /** splitByHeuristicsImpl's bounds: the kept ones between 0 and the text's end. */
  method FindPackBounds(lex: Lexicon, text: string, cfg: Config) returns (bounds: seq<int>)
    requires lex.Valid()
    ensures bounds == [] || PackBounds(bounds, |text|)
    ensures bounds == [] <==> KeptBounds(lex.heuristicBounds(text, cfg.languages), ProtectedRunes(lex, text)) == []
    ensures forall b :: b in bounds && 0 < b < |text| ==>
              b in lex.heuristicBounds(text, cfg.languages) && !Inside(ProtectedRunes(lex, text), b)
    ensures bounds != [] ==>
              forall b :: b in lex.heuristicBounds(text, cfg.languages) && !Inside(ProtectedRunes(lex, text), b) ==> b in bounds
  {
    var found := lex.heuristicBounds(text, cfg.languages);
    assert BoundsOk(text, found);
    ProtectedOnRunes(lex, text);
    var bytes := Resolve(lex, text);
    var spans := ToRunes(text, bytes);
    assert spans == ProtectedRunes(lex, text);
    var kept := DropBoundsInsideSpans(found, spans);
    KeptBoundsAscend(found, spans);
    forall b ensures b in kept <==> b in found && !Inside(spans, b) {
      KeptBoundsMembers(found, spans, b);
    }
    assert forall k :: 0 <= k < |kept| ==> kept[k] in kept && kept[k] in found;
    if |kept| == 0 {
      return [];
    }
    bounds := WithEnds(kept, |text|);
  }

  /** Adds the sentinel at the end of the document and, if missing, the bound at 0. */
  method WithEnds(kept: seq<int>, n: int) returns (bounds: seq<int>)
    requires kept != [] && Ascending(kept) && forall k :: 0 <= k < |kept| ==> 0 <= kept[k] <= n
    ensures PackBounds(bounds, n) && (forall b :: b in kept ==> b in bounds)
    ensures forall b :: b in bounds && 0 < b < n ==> b in kept
  {
    bounds := kept + [n];
    if bounds[0] != 0 {
      bounds := [0] + bounds;
    }
  }

  /** The bounds between the ends are exactly the found ones that tear no span; those at its edges are kept. */
  ghost predicate BoundsExactly(text: string, found: seq<int>, spans: seq<Span>, bounds: seq<int>) {
    forall b :: 0 < b < |text| ==>
      (b in bounds <==> b in found && forall i :: 0 <= i < |spans| ==> b <= spans[i].start || spans[i].end <= b)
  }

  lemma KeptExactly(text: string, found: seq<int>, spans: seq<Span>, bounds: seq<int>)
    requires forall b :: b in bounds && 0 < b < |text| ==> b in found && !Inside(spans, b)
    requires forall b :: b in found && !Inside(spans, b) ==> b in bounds
    ensures BoundsExactly(text, found, spans, bounds)
  {
  }

  /**
   * splitByHeuristicsImpl: the pieces leave no gap, never move backwards, keep packed chunks
   * under the cap, and their chunks lose nothing.
   */
  method SplitByHeuristics(lex: Lexicon, text: string, cfg: Config)
    returns (out: seq<Chunk>, ghost bounds: seq<int>, ghost ps: seq<Piece>, ghost groups: seq<seq<Chunk>>, ghost units: seq<SplitUnit>)
    requires lex.Valid() && cfg == EnsureDefaults(lex, cfg)
    ensures TierOk(text, out) && forall i :: 0 <= i < |out| ==> out[i].contextHeader == ""
    ensures text != "" && (|text| <= cfg.chunkSize || KeptBounds(lex.heuristicBounds(text, cfg.languages), ProtectedRunes(lex, text)) == []) ==>
              SplitOk(lex, text, cfg, units, out)
    ensures |text| > cfg.chunkSize && KeptBounds(lex.heuristicBounds(text, cfg.languages), ProtectedRunes(lex, text)) != [] ==>
              && PackBounds(bounds, |text|) && ps != [] && Chained(text, bounds, cfg, ps) && LastEnd(ps) == |text|
              && FromPieces(out, ps) && PieceGroups(lex, text, cfg, ps, out, groups)
              && (cfg.chunkSize >= 50 ==> forall i :: 0 <= i < |out| ==> |out[i].content| <= 2 * cfg.chunkSize || InOversize(out[i], ps))
              && BoundsExactly(text, lex.heuristicBounds(text, cfg.languages), ProtectedRunes(lex, text), bounds)
  {
    hide BoundsExactly, PieceGroup, SplitOk, TierOk, Packed, Chained, EnsureDefaults, Packing, PackBounds, FromPieces, Inside, KeptBounds, ProtectedRunes;
    SizePositive(lex, cfg);
    bounds, ps, groups, units := [], [], [], [];
    if text == "" {
      EmptyTier();
      return [], [], [], [], [];
    }
    if |text| <= cfg.chunkSize {
      out, units := SplitText(lex, text, cfg);
      SplitIsTier(lex, text, cfg, units, out);
      InnerHeaders(lex, text, cfg, units, out);
      return;
    }
    var bs := FindPackBounds(lex, text, cfg);
    bounds := bs;
    if |bs| > 0 {
      KeptExactly(text, lex.heuristicBounds(text, cfg.languages), ProtectedRunes(lex, text), bs);
    }
    if |bs| == 0 {
      out, units := SplitText(lex, text, cfg);
      SplitIsTier(lex, text, cfg, units, out);
      InnerHeaders(lex, text, cfg, units, out);
      return;
    }
    out := [];
    PackingBegins(text, bs, cfg);
    var chunkStart, curEnd := bs[0], bs[0];
    for i := 1 to |bs|
      invariant Packing(text, bs, cfg, i, out, chunkStart, curEnd, ps) && PieceGroups(lex, text, cfg, ps, out, groups)
    {
      out, chunkStart, curEnd, ps, groups := PackStep(lex, cfg, text, bs, i, out, chunkStart, curEnd, ps, groups);
    }
    PackingEnds(text, bs, cfg, out, chunkStart, curEnd, ps);
    out, ps, groups := FlushPending(lex, cfg, text, bs, |bs|, out, chunkStart, curEnd, ps, groups);
    PackedIsTier(text, cfg, out);
    if cfg.chunkSize >= 50 {
      PackCapIsTwice(lex, cfg);
      forall i | 0 <= i < |out| ensures |out[i].content| <= 2 * cfg.chunkSize || InOversize(out[i], ps) {
        PackedWithinCap(text, bounds, cfg, out, ps, i);
      }
    }
  }

  lemma PackingBegins(text: string, bounds: seq<int>, cfg: Config)
    requires PackBounds(bounds, |text|) && cfg.chunkSize >= 1 && cfg.chunkOverlap >= 0
    ensures |bounds| >= 2 && bounds[0] == 0 && Packing(text, bounds, cfg, 1, [], 0, 0, [])
  {
  }

  lemma PackingEnds(text: string, bounds: seq<int>, cfg: Config, out: seq<Chunk>, chunkStart: int, curEnd: int, ps: seq<Piece>)
    requires PackBounds(bounds, |text|) && text != "" && Packing(text, bounds, cfg, |bounds|, out, chunkStart, curEnd, ps)
    ensures curEnd == |text| && (chunkStart < curEnd || ps != [])
  {
  }

  lemma PackedIsTier(text: string, cfg: Config, out: seq<Chunk>)
    requires Packed(text, cfg, out, |text|)
    ensures TierOk(text, out) && forall i :: 0 <= i < |out| ==> out[i].contextHeader == ""
  {
  }

  /** With a chunk size of at least 50 and the clamped overlap, the cap is the validator's limit. */
  lemma PackCapIsTwice(lex: Lexicon, config: Config)
    ensures var cfg := EnsureDefaults(lex, config);
            && (cfg.chunkSize >= 50 ==> PackCap(cfg.chunkSize, cfg.chunkOverlap) <= 2 * cfg.chunkSize)
            && PackCap(cfg.chunkSize, cfg.chunkOverlap) <= Max(2 * cfg.chunkSize, cfg.chunkSize + 49)
  {
  }

  ghost predicate InOversize(c: Chunk, ps: seq<Piece>) {
    exists p :: p in ps && p.Oversize? && Within(c, p)
  }

  /** Every chunk outside an oversize block holds no more runes than the cap. */
  lemma PackedWithinCap(text: string, bounds: seq<int>, cfg: Config, out: seq<Chunk>, ps: seq<Piece>, i: nat)
    requires TierOk(text, out) && Chained(text, bounds, cfg, ps) && FromPieces(out, ps) && i < |out|
    ensures |out[i].content| <= PackCap(cfg.chunkSize, cfg.chunkOverlap) || InOversize(out[i], ps)
  {
    hide Follows, Covers;
    assert InPiece(out[i], ps);
    var p :| p in ps && Within(out[i], p);
    assert PieceOk(bounds, cfg, p);
    assert Verbatim(text, out[i]);
    VerbatimHasNoSurplus(text, out[i]);
  }
}
