/** Merging units into chunks, with overlap and re-injected table headers. */
module Merge {
  import opened Numbers
  import opened Text
  import opened Chunks
  import opened Lexicons
  import opened ProtectedSpans
  import opened Separators
  import opened Units
  import opened Overlap
  import opened Configs
  import HeaderTrackers

  // ---- what a list of emitted chunks promises -------------------------------

  /** A unit end, a cut inside a unit too large for any chunk, or the collapsed range at 0. */
  predicate CutAllowed(units: seq<SplitUnit>, e: int) {
    e == 0 || exists i :: 0 <= i < |units| && CutsUnit(units[i], e)
  }

  predicate CutsUnit(u: SplitUnit, e: int) {
    u.end == e || (|u.text| > ABSOLUTE_MAX && CutInside(u.text, e - u.start))
  }

  /** A cut point of the text, counted from some earlier offset. */
  predicate CutInside(runes: string, e: int) {
    exists from :: 0 <= from < e && IsCutPoint(runes, from, e)
  }

  predicate ChunkOk(src: string, units: seq<SplitUnit>, bound: int, c: Chunk) {
    && Verbatim(src, c) && |c.content| <= bound && CutAllowed(units, c.end) && (c.start < c.end || c.end == 0)
    && c.contextHeader == "" && c.pages.None? && (Blank(c.content) ==> FromOversized(units, c))
  }

  /** c is a piece of a unit too large for any chunk. */
  predicate FromOversized(units: seq<SplitUnit>, c: Chunk) {
    exists i :: 0 <= i < |units| && |units[i].text| > ABSOLUTE_MAX && units[i].start <= c.start < c.end <= units[i].end
  }

  /** The promises about chunks emitted so far, the last of which ends by pos. */
  predicate Emitted(src: string, units: seq<SplitUnit>, bound: int, chunks: seq<Chunk>, pos: int) {
    && (forall i :: 0 <= i < |chunks| ==> ChunkOk(src, units, bound, chunks[i]) && chunks[i].end <= pos)
    && DenseSeq(chunks)
  }

  /** Every non-whitespace rune before pos is in a chunk or in the accumulator, which starts at a. */
  predicate Covered(src: string, chunks: seq<Chunk>, a: int, pos: int) {
    forall k :: 0 <= k < pos && k < |src| && !IsSpace(src[k]) ==> InSome(chunks, k) || a <= k
  }

  /** The accumulator: at most one leading synthetic unit, then source units running from a to pos. */
  predicate Accumulated(src: string, current: seq<SplitUnit>, curLen: int, a: int, pos: int) {
    0 <= a <= pos <= |src| && Tiles(src, Body(current), a, pos) && curLen == |UnitsText(current)|
  }

  predicate HasHeader(current: seq<SplitUnit>) {
    current != [] && current[0].IsSynthetic()
  }

  // ---- the merge as a machine on offsets ------------------------------------

  /** Emitted chunks, then a pending chunk: a header (or "") followed by the source text from..pos. */
  datatype MergeState = MergeState(chunks: seq<Chunk>, header: string, from: int, pos: int) {
    predicate Empty() { header == "" && from == pos }

    function Len(): int { |header| + pos - from }
  }

  predicate InText(src: string, s: MergeState) {
    0 <= s.from <= s.pos <= |src|
  }

  /** A header followed by the source text from..to, with the range collapsed when that is empty. */
  function ChunkFrom(src: string, header: string, from: int, to: int, seqNo: nat): Chunk
    requires 0 <= from <= to <= |src|
  {
    Chunk(header + src[from..to], "", seqNo, if from < to then from else 0, if from < to then to else 0, None, |header|)
  }

  /** The pending chunk joins the output unless it is blank. */
  function Emit(src: string, s: MergeState): seq<Chunk>
    requires InText(src, s)
  {
    if Blank(s.header + src[s.from..s.pos]) then s.chunks
    else s.chunks + [ChunkFrom(src, s.header, s.from, s.pos, |s.chunks|)]
  }

  function Emptied(src: string, s: MergeState): MergeState
    requires InText(src, s)
  {
    MergeState(Emit(src, s), "", s.pos, s.pos)
  }

  /** pieces cut u's text between two rune offsets, at the preferred cut points. */
  predicate ChoppedInto(u: SplitUnit, from: int, to: int, seqNo: int, pieces: seq<Chunk>)
    decreases |pieces|
  {
    if pieces == [] then from == to
    else
      var end := pieces[0].end - u.start;
      && seqNo >= 0 && IsCutPoint(u.text, from, end)
      && pieces[0] == Chunk(u.text[from..end], "", seqNo, u.start + from, u.start + end, None, 0)
      && ChoppedInto(u, end, to, seqNo + 1, pieces[1..])
  }

  /** from is f, or else the first unit end after f, from which the text up to pos fits the room. */
  predicate Shrunk(units: seq<SplitUnit>, f: int, pos: int, room: int, from: int) {
    && (from == f || (f < from && EndsAUnit(units, from)))
    && pos - from <= room
    && (f < from ==> pos - f > room)
    && forall j :: 0 <= j < |units| && f < units[j].end < from ==> pos - units[j].end > room
  }

  predicate EndsAUnit(units: seq<SplitUnit>, e: int) {
    exists j :: 0 <= j < |units| && units[j].end == e
  }

  /** The last part of some unit. */
  predicate Fragment(units: seq<SplitUnit>, v: SplitUnit) {
    exists j :: 0 <= j < |units| && units[j].start <= v.start && units[j].end == v.end
  }

  /** The source-backed part of an accumulator: the last part of a unit, then whole units. */
  predicate Fragments(units: seq<SplitUnit>, body: seq<SplitUnit>) {
    forall i :: 0 <= i < |body| ==> Fragment(units, body[i])
  }

  lemma TailFragments(units: seq<SplitUnit>, body: seq<SplitUnit>, tail: seq<SplitUnit>)
    requires Fragments(units, body) && Tail(body, tail)
    ensures Fragments(units, tail)
  {
    var k := |body| - |tail|;
    forall i | 0 <= i < |tail| ensures Fragment(units, tail[i]) {
      if i > 0 {
        assert tail[i] == tail[1..][i - 1] && body[k + 1..][i - 1] == body[k + i];
        assert Fragment(units, body[k + i]);
      } else {
        assert Fragment(units, body[k]);
        var j :| 0 <= j < |units| && units[j].start <= body[k].start && units[j].end == body[k].end;
        assert units[j].start <= tail[0].start && units[j].end == tail[0].end;
      }
    }
  }

  /**
   * What an overflowing accumulator leaves behind: the argmin overlap of the text it held,
   * shrunk only when the header and the next unit need the room, under the active header
   * unless that would be redundant.
   */
  ghost predicate OverflowRel(lex: Lexicon, src: string, units: seq<SplitUnit>, chunkSize: int, chunkOverlap: int, s: MergeState,
                              u: SplitUnit, h: string, s': MergeState)
    requires lex.Valid() && InText(src, s)
  {
    var overlap := OverlapStart(lex, src, s.from, s.pos, OverlapBudget(chunkOverlap, chunkSize, |u.text|));
    var f := if overlap.Some? then overlap.value else s.pos;
    && s'.chunks == Emit(src, s) && s'.pos == s.pos
    && if h != "" && |h| + |u.text| <= chunkSize then
         && Shrunk(units, f, s.pos, chunkSize - |u.text| - |h|, s'.from)
         && 0 <= s'.from <= s.pos && s'.header == (if lex.tables.Redundant(h, src[s'.from..s.pos], u.text) then "" else h)
       else s'.from == f && s'.header == ""
  }

  /** One unit of the merge. */
  ghost predicate StepRel(lex: Lexicon, src: string, units: seq<SplitUnit>, chunkSize: int, chunkOverlap: int, s: MergeState,
                          u: SplitUnit, view: HeaderView, s': MergeState)
    requires lex.Valid() && InText(src, s)
  {
    if |u.text| > ABSOLUTE_MAX then
      var out := Emit(src, s);
      out <= s'.chunks && ChoppedInto(u, 0, |u.text|, |out|, s'.chunks[|out|..]) && s' == MergeState(s'.chunks, "", u.end, u.end)
    else
      var s1 := if view.ended then Emptied(src, s) else s;
      var h := if |view.headers| > chunkSize then "" else view.headers;
      exists s2 :: RoomRel(lex, src, units, chunkSize, chunkOverlap, s1, u, h, s2)
        && s' == (if s2.Len() + |u.text| > ABSOLUTE_MAX then Emptied(src, s2) else s2).(pos := u.end)
  }

  ghost predicate RoomRel(lex: Lexicon, src: string, units: seq<SplitUnit>, chunkSize: int, chunkOverlap: int, s: MergeState,
                          u: SplitUnit, h: string, s': MergeState)
    requires lex.Valid() && InText(src, s)
  {
    InText(src, s') &&
    if s.Len() + |u.text| + |h| > chunkSize && !s.Empty() then OverflowRel(lex, src, units, chunkSize, chunkOverlap, s, u, h, s')
    else s' == s
  }

  function TextsOf(units: seq<SplitUnit>): seq<string> {
    seq(|units|, i requires 0 <= i < |units| => units[i].text)
  }

  /** run is the merge of all units, state by state. */
  ghost predicate MergeRun(lex: Lexicon, src: string, units: seq<SplitUnit>, chunkSize: int, chunkOverlap: int, run: seq<MergeState>)
    requires lex.Valid()
  {
    && |run| > 0 && run[0] == MergeState([], "", 0, 0) && |run| <= |units| + 1
    && (forall i :: 0 <= i < |run| ==> InText(src, run[i]))
    && (forall i :: 0 <= i < |run| - 1 ==>
          StepRel(lex, src, units, chunkSize, chunkOverlap, run[i], units[i], lex.Header(TextsOf(units[..i + 1])), run[i + 1]))
  }

  /** The machine state an accumulator stands for. */
  function StateOf(chunks: seq<Chunk>, current: seq<SplitUnit>, a: int, pos: int): MergeState {
    MergeState(chunks, HeaderOf(current), a, pos)
  }

  function HeaderOf(current: seq<SplitUnit>): string {
    if HasHeader(current) then current[0].text else ""
  }

  // ---- buildChunk, flush, chopOversize --------------------------------------

  lemma BodyPrefix(src: string, current: seq<SplitUnit>, a: int, b: int, i: nat)
    requires i < |current| && Tiles(src, Body(current), a, b)
    ensures i > 0 || !HasHeader(current) ==> IsSource(src, current[i]) && !current[i].IsSynthetic() && current[i].end <= b
    ensures i > 0 || !HasHeader(current) ==> current[i].start == (if Body(current[..i]) == [] then a else current[i - 1].end)
  {
    if i > 0 || !HasHeader(current) {
      var body := Body(current);
      var k := if HasHeader(current) then i - 1 else i;
      assert body[k] == current[i];
      TilesAt(src, body, a, b, k);
      TilesEnds(src, body[..k], a, current[i].start);
      if k > 0 { assert body[..k][k - 1] == current[i - 1]; }
    }
  }

  /** buildChunk concatenates units verbatim, counting the synthetic runes it starts with. */
  method BuildChunk(ghost src: string, units: seq<SplitUnit>, seqNo: nat, ghost a: int, ghost b: int) returns (c: Chunk)
    requires 0 <= a <= b <= |src| && Tiles(src, Body(units), a, b)
    ensures c == ChunkFrom(src, HeaderOf(units), a, b, seqNo) && c.content == UnitsText(units)
    ensures Verbatim(src, c) && (Body(units) == [] <==> a == b)
  {
    var content := "";
    var synthetic := 0;
    var start, end := -1, -1;
    for i := 0 to |units|
      invariant content == UnitsText(units[..i])
      invariant synthetic == (if i > 0 && HasHeader(units) then |units[0].text| else 0)
      invariant start == (if Body(units[..i]) == [] then -1 else a)
      invariant end == (if Body(units[..i]) == [] then -1 else units[i - 1].end)
    {
      BodyPrefix(src, units, a, b, i);
      assert units[..i + 1] == units[..i] + [units[i]];
      UnitsTextAppend(units[..i], [units[i]]);
      assert [units[i]][1..] == [];
      content := content + units[i].text;
      if units[i].IsSynthetic() {
        synthetic := synthetic + |units[i].text|;
      } else {
        if start < 0 {
          start := units[i].start;
        }
        end := units[i].end;
      }
    }
    assert units[..|units|] == units;
    ContentOf(src, units, a, b);
    TilesEnds(src, Body(units), a, b);
    if start < 0 {
      start, end := 0, 0;
    }
    c := Chunk(content, "", seqNo, start, end, None, synthetic);
  }

  /** An accumulator's text is its header, if any, followed by the source text it covers. */
  lemma ContentOf(src: string, current: seq<SplitUnit>, a: int, b: int)
    requires 0 <= a <= b <= |src| && Tiles(src, Body(current), a, b)
    ensures HasHeader(current) ==> UnitsText(current) == current[0].text + src[a..b]
    ensures !HasHeader(current) ==> UnitsText(current) == src[a..b]
    ensures UnitsText(current) == HeaderOf(current) + src[a..b]
  {
    TilesText(src, Body(current), a, b);
  }

  /** hasContent */
  method HasContent(units: seq<SplitUnit>) returns (r: bool)
    ensures r <==> !Blank(UnitsText(units))
  {
    for i := 0 to |units|
      invariant Blank(UnitsText(units[..i]))
    {
      assert units[..i + 1] == units[..i] + [units[i]];
      UnitsTextAppend(units[..i], [units[i]]);
      assert [units[i]][1..] == [];
      if !Blank(units[i].text) {
        assert units == units[..i] + ([units[i]] + units[i + 1..]);
        UnitsTextAppend(units[..i], [units[i]] + units[i + 1..]);
        assert ([units[i]] + units[i + 1..])[1..] == units[i + 1..];
        NotBlankMiddle(UnitsText(units[..i]), units[i].text, UnitsText(units[i + 1..]));
        return true;
      }
    }
    assert units[..|units|] == units;
    r := false;
  }

  lemma NotBlankMiddle(p: string, m: string, s: string)
    requires !Blank(m)
    ensures !Blank(p + (m + s))
  {
    var k :| 0 <= k < |m| && !IsSpace(m[k]);
    assert (p + (m + s))[|p| + k] == m[k];
  }

  lemma EmittedMore(src: string, units: seq<SplitUnit>, bound: int, chunks: seq<Chunk>, c: Chunk, pos: int)
    requires Emitted(src, units, bound, chunks, pos)
    requires ChunkOk(src, units, bound, c) && c.end <= pos && c.seqNo == |chunks|
    ensures Emitted(src, units, bound, chunks + [c], pos)
  {
  }

  lemma CoveredMore(src: string, chunks: seq<Chunk>, c: Chunk, a: int, pos: int)
    requires 0 <= a <= pos <= |src| && Covered(src, chunks, a, pos)
    requires Blank(src[a..pos]) || (c.start <= a && c.end == pos)
    ensures Blank(src[a..pos]) ==> Covered(src, chunks, pos, pos)
    ensures !Blank(src[a..pos]) ==> Covered(src, chunks + [c], pos, pos)
  {
    forall k | 0 <= k < pos && !IsSpace(src[k])
      ensures Blank(src[a..pos]) ==> InSome(chunks, k)
      ensures !Blank(src[a..pos]) ==> InSome(chunks + [c], k)
    {
      InSomeAppend(chunks, [c], k);
      if a <= k {
        assert src[a..pos][k - a] == src[k];
        assert [c][0] == c;
      }
    }
  }

  /**
   * flush emits the accumulator as one chunk, unless it carries only whitespace. Either way
   * nothing before pos is left uncovered.
   */
  method Flush(ghost src: string, ghost units: seq<SplitUnit>, ghost bound: int,
               chunks: seq<Chunk>, current: seq<SplitUnit>, curLen: int, ghost a: int, ghost pos: int)
    returns (chunks': seq<Chunk>, current': seq<SplitUnit>, curLen': int)
    requires Emitted(src, units, bound, chunks, pos) && Covered(src, chunks, a, pos)
    requires Accumulated(src, current, curLen, a, pos)
    requires curLen <= bound && CutAllowed(units, pos)
    ensures current' == [] && curLen' == 0
    ensures Emitted(src, units, bound, chunks', pos) && Covered(src, chunks', pos, pos)
    ensures chunks' == Emit(src, StateOf(chunks, current, a, pos))
  {
    chunks' := chunks;
    var content := HasContent(current);
    ContentOf(src, current, a, pos);
    TilesEnds(src, Body(current), a, pos);
    if |current| > 0 && content {
      var c := BuildChunk(src, current, |chunks|, a, pos);
      EmittedMore(src, units, bound, chunks, c, pos);
      chunks' := chunks + [c];
      FlushCovers(src, chunks, current, c, a, pos);
    } else {
      var c := Chunk("", "", 0, a, pos, None, 0);
      assert Blank(src[a..pos]) by { BlankSuffix(src, current, a, pos); }
      CoveredMore(src, chunks, c, a, pos);
    }
    current', curLen' := [], 0;
  }

  lemma BlankSuffix(src: string, current: seq<SplitUnit>, a: int, b: int)
    requires 0 <= a <= b <= |src| && Tiles(src, Body(current), a, b) && Blank(UnitsText(current))
    ensures Blank(src[a..b])
  {
    ContentOf(src, current, a, b);
    if HasHeader(current) {
      var h := current[0].text;
      assert forall k :: 0 <= k < b - a ==> (h + src[a..b])[|h| + k] == src[a..b][k];
    }
  }

  lemma FlushCovers(src: string, chunks: seq<Chunk>, current: seq<SplitUnit>, c: Chunk, a: int, pos: int)
    requires 0 <= a <= pos <= |src| && Covered(src, chunks, a, pos) && Tiles(src, Body(current), a, pos)
    requires Body(current) != [] ==> c.start == a && c.end == pos
    ensures Covered(src, chunks + [c], pos, pos)
  {
    forall k | 0 <= k < pos && !IsSpace(src[k]) ensures InSome(chunks + [c], k) {
      InSomeAppend(chunks, [c], k);
      assert [c][0] == c;
    }
  }

  /** chopOversize: slices of at most the hard cap that tile the unit. */
  method ChopOversize(u: SplitUnit, startSeq: nat) returns (out: seq<Chunk>)
    ensures ChoppedInto(u, 0, |u.text|, startSeq, out)
  {
    var runes := u.text;
    out := [];
    var offset := 0;
    while offset < |runes|
      invariant 0 <= offset <= |runes|
      invariant ChoppedInto(u, 0, offset, startSeq, out)
    {
      var chunkEnd := CutPoint(runes, offset);
      var c := Chunk(runes[offset..chunkEnd], "", startSeq + |out|, u.start + offset, u.start + chunkEnd, None, 0);
      ChoppedSnoc(u, 0, offset, chunkEnd, startSeq, out, c);
      out := out + [c];
      offset := chunkEnd;
    }
  }

  lemma {:induction false} ChoppedSnoc(u: SplitUnit, from: int, mid: int, to: int, seqNo: nat, pieces: seq<Chunk>, c: Chunk)
    requires ChoppedInto(u, from, mid, seqNo, pieces) && IsCutPoint(u.text, mid, to)
    requires c == Chunk(u.text[mid..to], "", seqNo + |pieces|, u.start + mid, u.start + to, None, 0)
    ensures ChoppedInto(u, from, to, seqNo, pieces + [c])
    decreases |pieces|
  {
    hide IsCutPoint;
    if pieces == [] {
      assert pieces + [c] == [c] && [c][1..] == [];
    } else {
      assert (pieces + [c])[1..] == pieces[1..] + [c];
      ChoppedSnoc(u, pieces[0].end - u.start, mid, to, seqNo + 1, pieces[1..], c);
    }
  }

  /** The i-th piece of a chopped unit. */
  predicate ChopPiece(src: string, u: SplitUnit, seqNo: int, c: Chunk) {
    && Verbatim(src, c) && c.seqNo == seqNo && c.synthetic == 0 && c.contextHeader == "" && c.pages.None?
    && |c.content| <= ABSOLUTE_MAX && u.start <= c.start < c.end <= u.end && CutInside(u.text, c.end - u.start)
  }

  lemma {:induction false} ChoppedFacts(src: string, u: SplitUnit, from: int, seqNo: nat, pieces: seq<Chunk>)
    requires IsSource(src, u) && 0 <= from && ChoppedInto(u, from, |u.text|, seqNo, pieces)
    ensures forall i :: 0 <= i < |pieces| ==> ChopPiece(src, u, seqNo + i, pieces[i])
    ensures forall k :: u.start + from <= k < u.end ==> InSome(pieces, k)
    decreases |pieces|
  {
    hide ChopPiece, ChoppedInto;
    if pieces == [] {
      NoPiece(u, from, seqNo);
    } else {
      var c := pieces[0];
      var end := c.end - u.start;
      FirstPiece(src, u, from, seqNo, pieces);
      ChoppedFacts(src, u, end, seqNo + 1, pieces[1..]);
      forall i | 0 <= i < |pieces| ensures ChopPiece(src, u, seqNo + i, pieces[i]) {
        if i > 0 { assert pieces[i] == pieces[1..][i - 1]; }
      }
      assert pieces == [c] + pieces[1..];
      forall k | u.start + from <= k < u.end ensures InSome(pieces, k) {
        InSomeAppend([c], pieces[1..], k);
        assert [c][0] == c;
      }
    }
  }

  lemma NoPiece(u: SplitUnit, from: int, seqNo: nat)
    requires ChoppedInto(u, from, |u.text|, seqNo, [])
    ensures from == |u.text|
  {
  }

  lemma FirstPiece(src: string, u: SplitUnit, from: int, seqNo: nat, pieces: seq<Chunk>)
    requires IsSource(src, u) && 0 <= from && pieces != [] && ChoppedInto(u, from, |u.text|, seqNo, pieces)
    ensures ChopPiece(src, u, seqNo, pieces[0]) && pieces[0].start == u.start + from
    ensures from <= pieces[0].end - u.start && ChoppedInto(u, pieces[0].end - u.start, |u.text|, seqNo + 1, pieces[1..])
  {
    hide IsCutPoint;
    var c := pieces[0];
    var end := c.end - u.start;
    CutPointRange(u.text, from, end);
    SliceOfSlice(src, u.start, u.end, from, end);
    assert c.content[0..] == c.content;
    assert CutInside(u.text, end);
  }

  lemma {:induction false} EmittedAll(src: string, units: seq<SplitUnit>, bound: int, chunks: seq<Chunk>, out: seq<Chunk>, pos: int)
    requires Emitted(src, units, bound, chunks, pos)
    requires forall i :: 0 <= i < |out| ==> ChoppedPieceOk(src, units, bound, out[i], pos, |chunks| + i)
    ensures Emitted(src, units, bound, chunks + out, pos)
    decreases |out|
  {
    if out == [] {
      assert chunks + out == chunks;
    } else {
      assert ChoppedPieceOk(src, units, bound, out[0], pos, |chunks| + 0);
      EmittedMore(src, units, bound, chunks, out[0], pos);
      assert chunks + out == (chunks + [out[0]]) + out[1..];
      EmittedAll(src, units, bound, chunks + [out[0]], out[1..], pos);
    }
  }

  // ---- mergeUnits -----------------------------------------------------------

  /** The loop invariant: emitted chunks, then an accumulator that ends at pos. */
  predicate Merging(src: string, units: seq<SplitUnit>, bound: int,
                    chunks: seq<Chunk>, current: seq<SplitUnit>, curLen: int, a: int, pos: int) {
    && Emitted(src, units, bound, chunks, pos) && Covered(src, chunks, a, pos)
    && Accumulated(src, current, curLen, a, pos) && curLen <= bound
    && (current != [] ==> Body(current) != []) && Fragments(units, Body(current))
  }

  /** The same, just before a unit of n runes is appended: a header may stand alone. */
  predicate Ready(src: string, units: seq<SplitUnit>, chunkSize: int, bound: int,
                  chunks: seq<Chunk>, current: seq<SplitUnit>, curLen: int, a: int, pos: int, n: int) {
    && Emitted(src, units, bound, chunks, pos) && Covered(src, chunks, a, pos)
    && Accumulated(src, current, curLen, a, pos) && curLen + n <= Max(chunkSize, n)
    && (Body(current) == [] ==> a == pos) && Fragments(units, Body(current))
  }

  /** Drops leading overlap units until the header and the incoming unit fit. */
  method ShrinkOverlap(ghost src: string, ghost units: seq<SplitUnit>, current: seq<SplitUnit>, curLen: int, room: int, ghost a: int, ghost pos: int)
    returns (current': seq<SplitUnit>, curLen': int, ghost a': int)
    requires 0 <= a && pos <= |src| && Tiles(src, current, a, pos) && curLen == pos - a && room >= 0
    requires Tiles(src, units, 0, |src|) && Fragments(units, current)
    ensures a <= a' <= pos && Tiles(src, current', a', pos) && curLen' == pos - a'
    ensures Shrunk(units, a, pos, room, a') && Fragments(units, current')
  {
    hide Fragment;
    current', curLen', a' := current, curLen, a;
    TilesEnds(src, current, a, pos);
    while |current'| > 0 && curLen' > room
      invariant a <= a' <= pos && Tiles(src, current', a', pos) && curLen' == pos - a' && Fragments(units, current')
      invariant a < a' ==> pos - a > room && EndsAUnit(units, a')
      invariant forall j :: 0 <= j < |units| && a < units[j].end < a' ==> pos - units[j].end > room
      decreases |current'|
    {
      var v := current'[0];
      TilesEnds(src, current', a', pos);
      TilesEnds(src, current'[1..], v.end, pos);
      assert Fragment(units, v);
      NoEndInside(src, units, v);
      FragmentsRest(units, current');
      curLen' := curLen' - |v.text|;
      a' := v.end;
      current' := current'[1..];
    }
    if current' == [] {
      assert a' == pos;
    }
  }

  lemma FragmentsRest(units: seq<SplitUnit>, body: seq<SplitUnit>)
    requires body != [] && Fragments(units, body)
    ensures Fragments(units, body[1..])
  {
    hide Fragment;
  }

  /** No unit ends inside the last part of another. */
  lemma NoEndInside(src: string, units: seq<SplitUnit>, v: SplitUnit)
    requires Tiles(src, units, 0, |src|) && Fragment(units, v)
    ensures EndsAUnit(units, v.end) && forall j :: 0 <= j < |units| ==> !(v.start < units[j].end < v.end)
  {
    var w :| 0 <= w < |units| && units[w].start <= v.start && units[w].end == v.end;
    forall j | 0 <= j < |units| ensures !(v.start < units[j].end < v.end) {
      if j < w {
        TilesAt(src, units, 0, |src|, w);
        TilesAt(src, units[..w], 0, units[w].start, j);
        assert units[..w][j] == units[j];
      } else if j > w {
        TilesAt(src, units, 0, |src|, j);
        TilesAt(src, units[..j], 0, units[j].start, w);
        assert units[..j][w] == units[w];
      }
    }
  }

  /** A run of source units has no synthetic head. */
  lemma PlainBody(src: string, us: seq<SplitUnit>, a: int, b: int)
    requires Tiles(src, us, a, b)
    ensures Body(us) == us && !HasHeader(us)
  {
  }

  /** The overlap carried from an accumulator over a..pos: source units from a' on. */
  predicate Overlapping(src: string, overlap: seq<SplitUnit>, overlapLen: int, a: int, a': int, pos: int) {
    && 0 <= a <= a' <= pos <= |src| && Tiles(src, overlap, a', pos) && overlapLen == pos - a'
  }

  /** The first half of the overflow branch: flush the accumulator and carry its overlap. */
  method Carry(lex: Lexicon, ghost src: string, ghost units: seq<SplitUnit>, chunkSize: int, chunkOverlap: int, ghost bound: int,
               chunks: seq<Chunk>, current: seq<SplitUnit>, curLen: int, uLen: nat, ghost a: int, ghost pos: int)
    returns (chunks': seq<Chunk>, current': seq<SplitUnit>, curLen': int, ghost a': int)
    requires lex.Valid() && Merging(src, units, bound, chunks, current, curLen, a, pos)
    requires current != [] && CutAllowed(units, pos)
    ensures Emitted(src, units, bound, chunks', pos) && Covered(src, chunks', pos, pos)
    ensures Overlapping(src, current', curLen', a, a', pos) && curLen' + uLen <= Max(chunkSize, uLen) && Fragments(units, current')
    ensures chunks' == Emit(src, StateOf(chunks, current, a, pos))
    ensures var overlap := OverlapStart(lex, src, a, pos, OverlapBudget(chunkOverlap, chunkSize, uLen));
            a' == if overlap.Some? then overlap.value else pos
  {
    hide OverlapStart, Emitted, Covered, Fragments, Tail;
    var dropped: seq<SplitUnit>, zero: int;
    chunks', dropped, zero := Flush(src, units, bound, chunks, current, curLen, a, pos);
    current', curLen' := ComputeOverlap(lex, src, current, chunkOverlap, chunkSize, uLen, a, pos);
    TailFragments(units, Body(current), current');
    ghost var from := OverlapStart(lex, src, a, pos, OverlapBudget(chunkOverlap, chunkSize, uLen));
    a' := if from.Some? then from.value else pos;
  }

  /** The overflow branch: flush, carry the overlap, and re-inject the active header if it fits. */
  method Overflow(lex: Lexicon, ghost src: string, ghost units: seq<SplitUnit>, chunkSize: int, chunkOverlap: int, ghost bound: int,
                  chunks: seq<Chunk>, current: seq<SplitUnit>, curLen: int, u: SplitUnit, headers: string, ghost a: int, ghost pos: int)
    returns (chunks': seq<Chunk>, current': seq<SplitUnit>, curLen': int, ghost a': int)
    requires lex.Valid() && Merging(src, units, bound, chunks, current, curLen, a, pos)
    requires current != [] && CutAllowed(units, pos) && IsSource(src, u) && u.start == pos
    requires curLen + |u.text| + |headers| > chunkSize && Tiles(src, units, 0, |src|)
    ensures Ready(src, units, chunkSize, bound, chunks', current', curLen', a', pos, |u.text|)
    ensures OverflowRel(lex, src, units, chunkSize, chunkOverlap, StateOf(chunks, current, a, pos), u, headers, StateOf(chunks', current', a', pos))
  {
    hide Emitted, Covered, OverlapStart, OverflowRel, Fragments, Shrunk, Emit, HeaderTrackers.TablePatterns.Redundant;
    chunks', current', curLen', a' := Carry(lex, src, units, chunkSize, chunkOverlap, bound, chunks, current, curLen, |u.text|, a, pos);
    ghost var a0 := a';
    if headers != "" && |headers| + |u.text| <= chunkSize {
      current', curLen', a' := Inject(lex, src, units, chunkSize, current', curLen', u, headers, a, a', pos);
    } else {
      PlainBody(src, current', a', pos);
      TilesText(src, current', a', pos);
    }
    CoveredEarlier(src, chunks', a', pos);
    OverflowDone(lex, src, units, chunkSize, chunkOverlap, StateOf(chunks, current, a, pos), u, headers, a0, StateOf(chunks', current', a', pos));
  }

  /** The overlap, shrunk for the header if that is to be injected, is what an overflow leaves. */
  lemma OverflowDone(lex: Lexicon, src: string, units: seq<SplitUnit>, chunkSize: int, chunkOverlap: int, s: MergeState, u: SplitUnit, h: string,
                     a0: int, s': MergeState)
    requires lex.Valid() && InText(src, s) && InText(src, s') && s'.chunks == Emit(src, s) && s'.pos == s.pos
    requires var overlap := OverlapStart(lex, src, s.from, s.pos, OverlapBudget(chunkOverlap, chunkSize, |u.text|));
             a0 == if overlap.Some? then overlap.value else s.pos
    requires if h != "" && |h| + |u.text| <= chunkSize then
               && Shrunk(units, a0, s.pos, chunkSize - |u.text| - |h|, s'.from)
               && s'.header == (if lex.tables.Redundant(h, src[s'.from..s.pos], u.text) then "" else h)
             else s'.from == a0 && s'.header == ""
    ensures OverflowRel(lex, src, units, chunkSize, chunkOverlap, s, u, h, s')
  {
    hide Emit, OverlapStart, Shrunk, HeaderTrackers.TablePatterns.Redundant;
  }

  /** Shrinks the overlap to make room, then prepends the header unless it would be redundant. */
  method Inject(lex: Lexicon, ghost src: string, ghost units: seq<SplitUnit>, chunkSize: int, current: seq<SplitUnit>, curLen: int,
                u: SplitUnit, headers: string, ghost a: int, ghost a0: int, ghost pos: int)
    returns (current': seq<SplitUnit>, curLen': int, ghost a': int)
    requires headers != "" && |headers| + |u.text| <= chunkSize && u.start == pos
    requires Overlapping(src, current, curLen, a, a0, pos) && Tiles(src, units, 0, |src|) && Fragments(units, current)
    ensures Accumulated(src, current', curLen', a', pos) && a0 <= a' && (Body(current') == [] ==> a' == pos)
    ensures curLen' + |u.text| <= chunkSize
    ensures Shrunk(units, a0, pos, chunkSize - |u.text| - |headers|, a') && Fragments(units, Body(current'))
    ensures StateOf([], current', a', pos).header == if lex.tables.Redundant(headers, src[a'..pos], u.text) then "" else headers
  {
    hide Fragments;
    current', curLen', a' := ShrinkOverlap(src, units, current, curLen, chunkSize - |u.text| - |headers|, a0, pos);
    PlainBody(src, current', a', pos);
    TilesText(src, current', a', pos);
    if !lex.tables.Redundant(headers, UnitsText(current'), u.text) {
      var startPos := u.start;
      if |current'| > 0 {
        startPos := current'[0].start;
      }
      assert ([SplitUnit(headers, startPos, startPos)] + current')[1..] == current';
      current' := [SplitUnit(headers, startPos, startPos)] + current';
      curLen' := curLen' + |headers|;
    }
  }

  lemma CoveredEarlier(src: string, chunks: seq<Chunk>, a: int, pos: int)
    requires Covered(src, chunks, pos, pos) && a <= pos
    ensures Covered(src, chunks, a, pos)
  {
  }

  lemma AppendUnit(src: string, units: seq<SplitUnit>, chunkSize: int, bound: int,
                   chunks: seq<Chunk>, current: seq<SplitUnit>, curLen: int, a: int, pos: int, u: SplitUnit)
    requires Ready(src, units, chunkSize, bound, chunks, current, curLen, a, pos, |u.text|)
    requires IsSource(src, u) && u.start == pos && u in units && chunkSize <= bound && |u.text| <= bound
    ensures Merging(src, units, bound, chunks, current + [u], curLen + |u.text|, a, u.end)
    ensures StateOf(chunks, current + [u], a, u.end) == StateOf(chunks, current, a, pos).(pos := u.end)
  {
    TilesSnoc(src, Body(current), u, a, pos);
    assert Body(current + [u]) == Body(current) + [u];
    OneFragment(units, Body(current), u);
    UnitsTextAppend(current, [u]);
    assert [u][1..] == [];
    EmittedLater(src, units, bound, chunks, pos, u.end);
  }

  lemma OneFragment(units: seq<SplitUnit>, body: seq<SplitUnit>, u: SplitUnit)
    requires Fragments(units, body) && u in units
    ensures Fragments(units, body + [u])
  {
    var w :| 0 <= w < |units| && units[w] == u;
    assert Fragment(units, u);
  }

  lemma EmittedLater(src: string, units: seq<SplitUnit>, bound: int, chunks: seq<Chunk>, pos: int, pos': int)
    requires Emitted(src, units, bound, chunks, pos) && pos <= pos'
    ensures Emitted(src, units, bound, chunks, pos')
  {
  }

  /** Emits whatever has accumulated, at a unit boundary. */
  method FlushAll(ghost src: string, ghost units: seq<SplitUnit>, ghost bound: int,
                  chunks: seq<Chunk>, current: seq<SplitUnit>, curLen: int, ghost a: int, ghost pos: int)
    returns (chunks': seq<Chunk>, current': seq<SplitUnit>, curLen': int)
    requires Merging(src, units, bound, chunks, current, curLen, a, pos) && CutAllowed(units, pos)
    requires 0 <= bound
    ensures Merging(src, units, bound, chunks', [], 0, pos, pos) && current' == [] && curLen' == 0
    ensures InText(src, StateOf(chunks, current, a, pos))
    ensures StateOf(chunks', [], pos, pos) == Emptied(src, StateOf(chunks, current, a, pos))
  {
    hide Emitted, Covered;
    chunks', current', curLen' := Flush(src, units, bound, chunks, current, curLen, a, pos);
  }

  /** A unit over the hard cap: flush, then chop it directly. */
  method MergeOversize(ghost src: string, ghost units: seq<SplitUnit>, ghost bound: int,
                       chunks: seq<Chunk>, current: seq<SplitUnit>, curLen: int, u: SplitUnit, ghost a: int, ghost pos: int)
    returns (chunks': seq<Chunk>)
    requires Merging(src, units, bound, chunks, current, curLen, a, pos) && CutAllowed(units, pos)
    requires IsSource(src, u) && u.start == pos && u in units && |u.text| > ABSOLUTE_MAX && ABSOLUTE_MAX <= bound
    ensures Merging(src, units, bound, chunks', [], 0, u.end, u.end)
    ensures InText(src, StateOf(chunks, current, a, pos))
    ensures var out := Emit(src, StateOf(chunks, current, a, pos));
            out <= chunks' && ChoppedInto(u, 0, |u.text|, |out|, chunks'[|out|..])
  {
    hide Emitted, Covered;
    var rest: seq<SplitUnit>, zero: int;
    chunks', rest, zero := FlushAll(src, units, bound, chunks, current, curLen, a, pos);
    var pieces := ChopOversize(u, |chunks'|);
    ChoppedOk(src, units, bound, chunks', pieces, u, pos);
    assert (chunks' + pieces)[|chunks'|..] == pieces;
    chunks' := chunks' + pieces;
  }

  lemma FitsReady(src: string, units: seq<SplitUnit>, chunkSize: int, bound: int,
                  chunks: seq<Chunk>, current: seq<SplitUnit>, curLen: int, a: int, pos: int, n: nat)
    requires Merging(src, units, bound, chunks, current, curLen, a, pos)
    requires current == [] || curLen + n <= chunkSize
    ensures Ready(src, units, chunkSize, bound, chunks, current, curLen, a, pos, n)
  {
  }

  /** The accumulator's length and emptiness are those of the state it stands for. */
  lemma StateLen(src: string, chunks: seq<Chunk>, current: seq<SplitUnit>, curLen: int, a: int, pos: int)
    requires Accumulated(src, current, curLen, a, pos)
    ensures var s := StateOf(chunks, current, a, pos);
            InText(src, s) && s.Len() == curLen && (current == [] ==> s.Empty()) && (Body(current) != [] ==> !s.Empty())
  {
    ContentOf(src, current, a, pos);
    TilesEnds(src, Body(current), a, pos);
  }

  lemma MergingLen(src: string, units: seq<SplitUnit>, bound: int,
                   chunks: seq<Chunk>, current: seq<SplitUnit>, curLen: int, a: int, pos: int)
    requires Merging(src, units, bound, chunks, current, curLen, a, pos)
    ensures var s := StateOf(chunks, current, a, pos);
            InText(src, s) && s.Len() == curLen && (current == [] <==> s.Empty())
  {
    StateLen(src, chunks, current, curLen, a, pos);
  }

  /** The hard ceiling's guard. With a budget within the ceiling it never fires. */
  method MakeRoom(ghost src: string, ghost units: seq<SplitUnit>, ghost chunkSize: int, ghost bound: int,
                  chunks: seq<Chunk>, current: seq<SplitUnit>, curLen: int, n: nat, ghost a: int, ghost pos: int)
    returns (chunks': seq<Chunk>, current': seq<SplitUnit>, curLen': int, ghost a': int)
    requires Ready(src, units, chunkSize, bound, chunks, current, curLen, a, pos, n) && CutAllowed(units, pos)
    requires chunkSize <= bound && n <= ABSOLUTE_MAX
    ensures Ready(src, units, chunkSize, bound, chunks', current', curLen', a', pos, n)
    ensures var s := StateOf(chunks, current, a, pos);
            && InText(src, s)
            && StateOf(chunks', current', a', pos) == (if s.Len() + n > ABSOLUTE_MAX then Emptied(src, s) else s)
    ensures chunkSize <= ABSOLUTE_MAX ==> chunks' == chunks && current' == current
  {
    hide Emitted, Covered;
    StateLen(src, chunks, current, curLen, a, pos);
    chunks', current', curLen', a' := chunks, current, curLen, a;
    if curLen + n > ABSOLUTE_MAX {
      chunks', current', curLen' := Flush(src, units, bound, chunks, current, curLen, a, pos);
      a' := pos;
    }
  }

  /** One iteration of the merge loop, on the unit that starts at pos. */
  method MergeStep(lex: Lexicon, ghost src: string, ghost units: seq<SplitUnit>, chunkSize: int, chunkOverlap: int, ghost bound: int,
                   chunks: seq<Chunk>, current: seq<SplitUnit>, curLen: int, u: SplitUnit, view: HeaderView, ghost a: int, ghost pos: int)
    returns (chunks': seq<Chunk>, current': seq<SplitUnit>, curLen': int, ghost a': int)
    requires lex.Valid() && chunkSize >= 1 && Merging(src, units, bound, chunks, current, curLen, a, pos)
    requires IsSource(src, u) && u.start == pos && CutAllowed(units, pos) && u in units && Tiles(src, units, 0, |src|)
    requires chunkSize <= bound && Min(|u.text|, ABSOLUTE_MAX) <= bound
    ensures Merging(src, units, bound, chunks', current', curLen', a', u.end)
    ensures InText(src, StateOf(chunks, current, a, pos))
    ensures StepRel(lex, src, units, chunkSize, chunkOverlap, StateOf(chunks, current, a, pos), u, view, StateOf(chunks', current', a', u.end))
  {
    hide Merging, Ready, CutAllowed, IsSource, OverflowRel, Emit, ChoppedInto;
    MergingLen(src, units, bound, chunks, current, curLen, a, pos);
    chunks', current', curLen', a' := chunks, current, curLen, a;
    var uLen := |u.text|;
    if uLen > ABSOLUTE_MAX {
      chunks' := MergeOversize(src, units, bound, chunks, current, curLen, u, a, pos);
      current', curLen', a' := [], 0, u.end;
      return;
    }
    if view.ended {
      chunks', current', curLen' := FlushAll(src, units, bound, chunks, current, curLen, a, pos);
      a' := pos;
    }
    var headers := view.headers;
    if |headers| > chunkSize {
      headers := "";
    }
    ghost var s1 := StateOf(chunks', current', a', pos);
    MergingLen(src, units, bound, chunks', current', curLen', a', pos);
    if curLen' + uLen + |headers| > chunkSize && |current'| > 0 {
      chunks', current', curLen', a' :=
        Overflow(lex, src, units, chunkSize, chunkOverlap, bound, chunks', current', curLen', u, headers, a', pos);
    } else {
      FitsReady(src, units, chunkSize, bound, chunks', current', curLen', a', pos, uLen);
    }
    ghost var s2 := StateOf(chunks', current', a', pos);
    chunks', current', curLen', a' := MakeRoom(src, units, chunkSize, bound, chunks', current', curLen', uLen, a', pos);
    AppendUnit(src, units, chunkSize, bound, chunks', current', curLen', a', pos, u);
    assert RoomRel(lex, src, units, chunkSize, chunkOverlap, s1, u, headers, s2);
    current' := current' + [u];
    curLen' := curLen' + uLen;
  }

  lemma ChoppedOk(src: string, units: seq<SplitUnit>, bound: int, chunks: seq<Chunk>, pieces: seq<Chunk>, u: SplitUnit, pos: int)
    requires Emitted(src, units, bound, chunks, pos) && Covered(src, chunks, pos, pos)
    requires IsSource(src, u) && u.start == pos && u in units && |u.text| > ABSOLUTE_MAX && ABSOLUTE_MAX <= bound
    requires ChoppedInto(u, 0, |u.text|, |chunks|, pieces)
    ensures Merging(src, units, bound, chunks + pieces, [], 0, u.end, u.end)
  {
    hide IsCutPoint, ChoppedInto;
    ChoppedFacts(src, u, 0, |chunks|, pieces);
    var w :| 0 <= w < |units| && units[w] == u;
    forall i | 0 <= i < |pieces|
      ensures ChoppedPieceOk(src, units, bound, pieces[i], u.end, |chunks| + i)
    {
      assert ChopPiece(src, u, |chunks| + i, pieces[i]);
      assert CutsUnit(units[w], pieces[i].end);
      assert units[w].start <= pieces[i].start < pieces[i].end <= units[w].end;
    }
    hide ChopPiece, CutAllowed, Verbatim, ChoppedPieceOk;
    EmittedLater(src, units, bound, chunks, pos, u.end);
    EmittedAll(src, units, bound, chunks, pieces, u.end);
    forall k | 0 <= k < u.end && !IsSpace(src[k]) ensures InSome(chunks + pieces, k) {
      InSomeAppend(chunks, pieces, k);
    }
  }

  predicate ChoppedPieceOk(src: string, units: seq<SplitUnit>, bound: int, c: Chunk, end: int, seqNo: int) {
    ChunkOk(src, units, bound, c) && c.end <= end && c.seqNo == seqNo && c.synthetic == 0
  }

  /** The rune length of the longest unit. */
  function LongestUnit(units: seq<SplitUnit>): nat {
    if units == [] then 0 else Max(|units[0].text|, LongestUnit(units[1..]))
  }

  lemma {:induction false} LongestUnitBounds(units: seq<SplitUnit>, u: SplitUnit)
    requires u in units
    ensures |u.text| <= LongestUnit(units)
  {
    if u == units[0] {
    } else {
      LongestUnitBounds(units[1..], u);
    }
  }

  /** The most runes a chunk may have: a larger budget than the hard cap, or the budget or longest unit within that cap. */
  function SizeCap(units: seq<SplitUnit>, chunkSize: int): (cap: int)
    ensures cap <= Max(chunkSize, ABSOLUTE_MAX)
  {
    if chunkSize <= ABSOLUTE_MAX then Min(Max(chunkSize, LongestUnit(units)), ABSOLUTE_MAX) else chunkSize
  }

  /** Within the budget; or, within the hard cap, no longer than some unit that could not be cut. */
  predicate WithinLimit(units: seq<SplitUnit>, chunkSize: int, n: nat) {
    n <= chunkSize || (n <= 7500 && exists i :: 0 <= i < |units| && n <= |units[i].text|)
  }

  lemma {:induction false} LongestIsUnit(units: seq<SplitUnit>)
    ensures LongestUnit(units) == 0 || exists i :: 0 <= i < |units| && LongestUnit(units) == |units[i].text|
  {
    if units == [] {
    } else {
      LongestIsUnit(units[1..]);
      if LongestUnit(units) != |units[0].text| {
        var i :| 0 <= i < |units[1..]| && LongestUnit(units[1..]) == |units[1..][i].text|;
        assert units[i + 1] == units[1..][i];
      }
    }
  }

  lemma CappedIsWithin(units: seq<SplitUnit>, chunkSize: int, n: nat)
    requires n <= SizeCap(units, chunkSize) && chunkSize >= 1
    ensures WithinLimit(units, chunkSize, n)
  {
    hide LongestUnit;
    LongestIsUnit(units);
  }

  /**
   * mergeUnits, with the headers of the table tracker: the unit-level accumulator is the
   * offset-level machine, run over all units, and its output keeps every promise.
   */
  method MergeUnits(lex: Lexicon, ghost src: string, units: seq<SplitUnit>, chunkSize: int, chunkOverlap: int)
    returns (chunks: seq<Chunk>, ghost run: seq<MergeState>)
    requires lex.Valid() && chunkSize >= 1 && Tiles(src, units, 0, |src|)
    ensures Emitted(src, units, SizeCap(units, chunkSize), chunks, |src|)
    ensures Covers(src, chunks)
    ensures |run| == |units| + 1 && MergeRun(lex, src, units, chunkSize, chunkOverlap, run)
    ensures chunks == Emit(src, run[|units|]) && run[|units|].pos == |src|
  {
    hide StepRel, Merging, MergeRun, CutAllowed, Tiles, TextsOf, IsSource, HeaderTrackers.Updated, HeaderTrackers.TrackerAfter;
    chunks := [];
    var current: seq<SplitUnit>, curLen := [], 0;
    ghost var a, pos, bound := 0, 0, SizeCap(units, chunkSize);
    var ht := new HeaderTrackers.HeaderTracker();
    assert units[0..] == units;
    StartsMerging(lex, src, units, chunkSize, chunkOverlap, bound);
    run := [StateOf([], [], 0, 0)];
    for i := 0 to |units|
      invariant Merging(src, units, bound, chunks, current, curLen, a, pos)
      invariant Tiles(src, units[i..], pos, |src|) && CutAllowed(units, pos)
      invariant fresh(ht) && ht.State() == HeaderTrackers.TrackerAfter(lex.tables, TextsOf(units[..i]))
      invariant |run| == i + 1 && run[i] == StateOf(chunks, current, a, pos)
      invariant MergeRun(lex, src, units, chunkSize, chunkOverlap, run)
    {
      var u := units[i];
      NextUnit(src, units, i, pos);
      ht.Update(lex.tables, u.text);
      var view := HeaderView(ht.headerEndedThisUnit, ht.GetHeaders());
      Tracked(lex, units, i);
      chunks, current, curLen, a :=
        MergeStep(lex, src, units, chunkSize, chunkOverlap, bound, chunks, current, curLen, u, view, a, pos);
      pos := u.end;
      EndAllowed(units, i);
      MergingLen(src, units, bound, chunks, current, curLen, a, pos);
      RunMore(lex, src, units, chunkSize, chunkOverlap, run, StateOf(chunks, current, a, pos));
      run := run + [StateOf(chunks, current, a, pos)];
    }
    var rest: seq<SplitUnit>, zero: int;
    NoUnitLeft(src, units, pos);
    chunks, rest, zero := FlushAll(src, units, bound, chunks, current, curLen, a, pos);
    AllMerged(src, units, bound, chunks);
  }

  lemma StartsMerging(lex: Lexicon, src: string, units: seq<SplitUnit>, chunkSize: int, chunkOverlap: int, bound: int)
    requires lex.Valid() && bound >= 0
    ensures Merging(src, units, bound, [], [], 0, 0, 0) && CutAllowed(units, 0)
    ensures MergeRun(lex, src, units, chunkSize, chunkOverlap, [StateOf([], [], 0, 0)])
    ensures TextsOf(units[..0]) == []
  {
  }

  lemma NextUnit(src: string, units: seq<SplitUnit>, i: nat, pos: int)
    requires i < |units| && Tiles(src, units[i..], pos, |src|)
    ensures IsSource(src, units[i]) && units[i].start == pos && units[i] in units
    ensures Tiles(src, units[i + 1..], units[i].end, |src|)
    ensures TextsOf(units[..i + 1]) == TextsOf(units[..i]) + [units[i].text]
    ensures |units[i].text| <= LongestUnit(units)
  {
    assert units[i..][1..] == units[i + 1..];
    LongestUnitBounds(units, units[i]);
  }

  lemma Tracked(lex: Lexicon, units: seq<SplitUnit>, i: nat)
    requires i < |units|
    ensures HeaderTrackers.TrackerAfter(lex.tables, TextsOf(units[..i + 1]))
            == HeaderTrackers.Updated(lex.tables, HeaderTrackers.TrackerAfter(lex.tables, TextsOf(units[..i])), units[i].text)
  {
    hide HeaderTrackers.Updated;
    assert TextsOf(units[..i + 1])[..i] == TextsOf(units[..i]);
  }

  lemma NoUnitLeft(src: string, units: seq<SplitUnit>, pos: int)
    requires Tiles(src, units[|units|..], pos, |src|)
    ensures pos == |src|
  {
  }

  lemma EndAllowed(units: seq<SplitUnit>, i: nat)
    requires i < |units|
    ensures CutAllowed(units, units[i].end)
  {
    assert CutsUnit(units[i], units[i].end);
  }

  lemma AllMerged(src: string, units: seq<SplitUnit>, bound: int, chunks: seq<Chunk>)
    requires Merging(src, units, bound, chunks, [], 0, |src|, |src|)
    ensures Emitted(src, units, bound, chunks, |src|) && Covers(src, chunks)
  {
  }

  lemma RunMore(lex: Lexicon, src: string, units: seq<SplitUnit>, chunkSize: int, chunkOverlap: int, run: seq<MergeState>, s: MergeState)
    requires lex.Valid() && MergeRun(lex, src, units, chunkSize, chunkOverlap, run) && |run| <= |units| && InText(src, s)
    requires StepRel(lex, src, units, chunkSize, chunkOverlap, run[|run| - 1], units[|run| - 1], lex.Header(TextsOf(units[..|run|])), s)
    ensures MergeRun(lex, src, units, chunkSize, chunkOverlap, run + [s])
  {
    hide StepRel;
    var r := run + [s];
    forall i | 0 <= i < |r| - 1
      ensures StepRel(lex, src, units, chunkSize, chunkOverlap, r[i], units[i], lex.Header(TextsOf(units[..i + 1])), r[i + 1])
    {
    }
  }

  // ---- header chunks stay apart ---------------------------------------------

  /** A header-carrying chunk never both touches its predecessor and fits beside it. */
  predicate Apart(chunkSize: int, prev: Option<Chunk>, start: int, len: int) {
    match prev
    case None => start > 0
    case Some(p) => !(p.end == start && |p.content| + len <= chunkSize)
  }

  function Last(chunks: seq<Chunk>): Option<Chunk> {
    if chunks == [] then None else Some(chunks[|chunks| - 1])
  }

  /** Every chunk with an injected header is apart from the one before it. */
  predicate HeadersApart(chunkSize: int, chunks: seq<Chunk>) {
    forall i :: 0 <= i < |chunks| && chunks[i].synthetic > 0 ==>
      Apart(chunkSize, Last(chunks[..i]), chunks[i].start, |chunks[i].content|)
  }

  /** The emitted header chunks are apart; so will be the pending one, which reaches back over the last unit. */
  predicate StaysApart(src: string, units: seq<SplitUnit>, chunkSize: int, s: MergeState, i: nat)
    requires i <= |units|
  {
    && InText(src, s) && HeadersApart(chunkSize, s.chunks)
    && s.pos == (if i == 0 then 0 else units[i - 1].end)
    && (s.Empty() || (i > 0 && s.from <= units[i - 1].start))
    && (s.header != "" ==> s.from < s.pos && Apart(chunkSize, Last(s.chunks), s.from, s.Len()))
  }

  lemma EmitApart(src: string, chunkSize: int, s: MergeState)
    requires InText(src, s) && HeadersApart(chunkSize, s.chunks)
    requires s.header != "" ==> Apart(chunkSize, Last(s.chunks), if s.from < s.pos then s.from else 0, s.Len())
    ensures HeadersApart(chunkSize, Emit(src, s))
  {
    var cs := Emit(src, s);
    forall i | 0 <= i < |cs| && cs[i].synthetic > 0
      ensures Apart(chunkSize, Last(cs[..i]), cs[i].start, |cs[i].content|)
    {
      assert cs[..i] == s.chunks[..i];
      assert i == |s.chunks| ==> s.chunks[..i] == s.chunks;
    }
  }

  /** Text that reaches back over a unit of ink is not blank. */
  lemma InkStays(src: string, u: SplitUnit, h: string, from: int)
    requires IsSource(src, u) && 0 <= from <= u.start && !Blank(u.text)
    ensures !Blank(h + src[from..u.end])
  {
    var k :| 0 <= k < |u.text| && !IsSpace(u.text[k]);
    assert src[from..u.end][u.start - from + k] == u.text[k];
    assert (h + src[from..u.end])[|h| + u.start - from + k] == u.text[k];
  }

  /** The tracker's header after a unit. */
  function HeadersAfter(lex: Lexicon, units: seq<SplitUnit>, i: nat): string
    requires i <= |units|
  {
    lex.Header(TextsOf(units[..i])).headers
  }

  /** A blank unit ends the header, and a header that a unit starts is not injected before it. */
  lemma HeadersStep(lex: Lexicon, units: seq<SplitUnit>, i: nat, overlap: string)
    requires lex.Valid() && i < |units|
    ensures Blank(units[i].text) ==> HeadersAfter(lex, units, i + 1) == ""
    ensures HeadersAfter(lex, units, i) == "" ==>
              HeadersAfter(lex, units, i + 1) == "" || lex.tables.Redundant(HeadersAfter(lex, units, i + 1), overlap, units[i].text)
  {
    hide Blank, HeaderTrackers.TrackerAfter, HeaderTrackers.Contains;
    var seen := TextsOf(units[..i]);
    assert TextsOf(units[..i + 1]) == seen + [units[i].text];
    if Blank(units[i].text) {
      HeaderTrackers.BlankClears(lex.tables, seen, units[i].text);
    }
    if HeadersAfter(lex, units, i) == "" {
      HeaderTrackers.StartsRedundant(lex.tables, seen, units[i].text, overlap);
    }
  }

  /** While a header is active, the pending text is not blank: its last unit would have ended the header. */
  lemma PendingNotBlank(lex: Lexicon, src: string, units: seq<SplitUnit>, chunkSize: int, s: MergeState, i: nat)
    requires lex.Valid() && Tiles(src, units, 0, |src|) && 0 < i <= |units| && StaysApart(src, units, chunkSize, s, i) && !s.Empty()
    requires HeadersAfter(lex, units, i) != ""
    ensures !Blank(s.header + src[s.from..s.pos])
  {
    hide HeadersApart, Apart, HeadersAfter, Blank, Lexicon.Valid;
    TilesAt(src, units, 0, |src|, i - 1);
    hide Tiles;
    HeadersStep(lex, units, i - 1, "");
    InkStays(src, units[i - 1], s.header, s.from);
  }

  /** An injected header: what was flushed before it is a chunk that ends where the next unit starts and leaves no room for both. */
  lemma InjectedStaysApart(lex: Lexicon, src: string, units: seq<SplitUnit>, chunkSize: int, chunkOverlap: int, s: MergeState, i: nat,
                           u: SplitUnit, h: string, s2: MergeState)
    requires lex.Valid() && Tiles(src, units, 0, |src|) && i < |units| && u == units[i]
    requires StaysApart(src, units, chunkSize, s, i) && !s.Empty() && s.Len() + |u.text| + |h| > chunkSize
    requires OverflowRel(lex, src, units, chunkSize, chunkOverlap, s, u, h, s2) && InText(src, s2) && s2.header != ""
    requires h == HeadersAfter(lex, units, i + 1)
    ensures HeadersApart(chunkSize, s2.chunks)
    ensures Apart(chunkSize, Last(s2.chunks), if s2.from < s2.pos then s2.from else 0, s2.Len())
    ensures Apart(chunkSize, Last(s2.chunks), s2.from, s2.Len() + |u.text|)
  {
    InjectedFacts(lex, src, units, chunkSize, chunkOverlap, s, u, h, s2);
    UnitAt(src, units, i);
    FlushApart(src, units, chunkSize, s, i);
    PendingReaches(src, units, chunkSize, s, i);
    hide OverflowRel, HeadersApart, Apart, HeadersAfter, Emit, StaysApart, Lexicon.Valid, HeaderTrackers.TablePatterns.Redundant, Blank;
    HeadersStep(lex, units, i, src[s2.from..s.pos]);
    PendingNotBlank(lex, src, units, chunkSize, s, i);
    FlushedApart(src, chunkSize, s, s2, |u.text|);
  }

  lemma PendingReaches(src: string, units: seq<SplitUnit>, chunkSize: int, s: MergeState, i: nat)
    requires i <= |units| && StaysApart(src, units, chunkSize, s, i) && !s.Empty() && (i > 0 ==> IsSource(src, units[i - 1]))
    ensures i > 0 && s.from < s.pos
  {
    hide HeadersApart, Apart;
  }

  lemma InjectedFacts(lex: Lexicon, src: string, units: seq<SplitUnit>, chunkSize: int, chunkOverlap: int, s: MergeState,
                      u: SplitUnit, h: string, s2: MergeState)
    requires lex.Valid() && InText(src, s) && OverflowRel(lex, src, units, chunkSize, chunkOverlap, s, u, h, s2) && InText(src, s2) && s2.header != ""
    ensures s2.header == h && s2.chunks == Emit(src, s) && s2.pos == s.pos && !lex.tables.Redundant(h, src[s2.from..s.pos], u.text)
  {
    hide OverlapStart, Emit, HeaderTrackers.TablePatterns.Redundant;
  }

  /** Beside the chunk just flushed there is no room for the header and the unit, and the overlap starts inside it. */
  lemma FlushedApart(src: string, chunkSize: int, s: MergeState, s2: MergeState, n: int)
    requires InText(src, s) && InText(src, s2) && s.from < s.pos && !Blank(s.header + src[s.from..s.pos])
    requires s2.chunks == Emit(src, s) && s2.pos == s.pos && n > 0 && s.Len() + n + |s2.header| > chunkSize
    ensures Apart(chunkSize, Last(s2.chunks), if s2.from < s2.pos then s2.from else 0, s2.Len())
    ensures Apart(chunkSize, Last(s2.chunks), s2.from, s2.Len() + n)
  {
    hide Blank;
  }

  lemma StepApart(lex: Lexicon, src: string, units: seq<SplitUnit>, chunkSize: int, chunkOverlap: int, s: MergeState, i: nat, s': MergeState)
    requires lex.Valid() && Tiles(src, units, 0, |src|) && i < |units| && StaysApart(src, units, chunkSize, s, i)
    requires StepRel(lex, src, units, chunkSize, chunkOverlap, s, units[i], lex.Header(TextsOf(units[..i + 1])), s') && InText(src, s')
    ensures StaysApart(src, units, chunkSize, s', i + 1)
  {
    UnitAt(src, units, i);
    FlushApart(src, units, chunkSize, s, i);
    var view := lex.Header(TextsOf(units[..i + 1]));
    if |units[i].text| > ABSOLUTE_MAX {
      hide StaysApart, OverflowRel, Emit, TextsOf, Tiles, ChoppedInto, HeadersApart;
      OversizeApart(src, units, chunkSize, s, i, s');
    } else {
      var s2 := RoomOf(lex, src, units, chunkSize, chunkOverlap, s, units[i], view, s');
      hide StepRel, StaysApart, RoomRel, Emit, TextsOf, Tiles, HeadersApart, Emptied;
      var s1 := if view.ended then Emptied(src, s) else s;
      var h := if |view.headers| > chunkSize then "" else view.headers;
      RoomApart(lex, src, units, chunkSize, chunkOverlap, s1, i, h, s2);
      AppendedApart(src, units, chunkSize, s2, i, s');
    }
  }

  /** The state in which a unit that is not oversized is appended. */
  lemma RoomOf(lex: Lexicon, src: string, units: seq<SplitUnit>, chunkSize: int, chunkOverlap: int, s: MergeState,
               u: SplitUnit, view: HeaderView, s': MergeState)
    returns (s2: MergeState)
    requires lex.Valid() && InText(src, s) && |u.text| <= ABSOLUTE_MAX
    requires StepRel(lex, src, units, chunkSize, chunkOverlap, s, u, view, s')
    ensures var s1 := if view.ended then Emptied(src, s) else s;
            RoomRel(lex, src, units, chunkSize, chunkOverlap, s1, u, if |view.headers| > chunkSize then "" else view.headers, s2)
    ensures InText(src, s2) && s' == (if s2.Len() + |u.text| > ABSOLUTE_MAX then Emptied(src, s2) else s2).(pos := u.end)
  {
    hide OverflowRel, Emit;
    var s1 := if view.ended then Emptied(src, s) else s;
    var h := if |view.headers| > chunkSize then "" else view.headers;
    s2 :| RoomRel(lex, src, units, chunkSize, chunkOverlap, s1, u, h, s2)
      && s' == (if s2.Len() + |u.text| > ABSOLUTE_MAX then Emptied(src, s2) else s2).(pos := u.end);
  }

  lemma FlushApart(src: string, units: seq<SplitUnit>, chunkSize: int, s: MergeState, i: nat)
    requires i < |units| && StaysApart(src, units, chunkSize, s, i) && units[i].start == (if i == 0 then 0 else units[i - 1].end)
    ensures InText(src, s) && HeadersApart(chunkSize, Emit(src, s)) && StaysApart(src, units, chunkSize, Emptied(src, s), i)
    ensures s.pos == units[i].start
  {
    hide HeadersApart, Emit, Apart;
    EmitApart(src, chunkSize, s);
  }

  lemma OversizeApart(src: string, units: seq<SplitUnit>, chunkSize: int, s: MergeState, i: nat, s': MergeState)
    requires i < |units| && InText(src, s) && HeadersApart(chunkSize, Emit(src, s)) && InText(src, s')
    requires var u, out := units[i], Emit(src, s);
             out <= s'.chunks && ChoppedInto(u, 0, |u.text|, |out|, s'.chunks[|out|..]) && s' == MergeState(s'.chunks, "", u.end, u.end)
    ensures StaysApart(src, units, chunkSize, s', i + 1)
  {
    hide HeadersApart, Emit, Apart, ChoppedInto;
    PiecesApart(src, chunkSize, Emit(src, s), units[i], s'.chunks);
  }

  lemma UnitAt(src: string, units: seq<SplitUnit>, i: nat)
    requires Tiles(src, units, 0, |src|) && i < |units|
    ensures IsSource(src, units[i]) && units[i].start == (if i == 0 then 0 else units[i - 1].end)
    ensures i > 0 ==> IsSource(src, units[i - 1])
  {
    TilesAt(src, units, 0, |src|, i);
    if i > 0 {
      TilesAt(src, units, 0, |src|, i - 1);
      TilesEnds(src, units[..i], 0, units[i].start);
    }
  }

  /** Appending the unit, after the hard ceiling's flush if it fires. */
  lemma AppendedApart(src: string, units: seq<SplitUnit>, chunkSize: int, s2: MergeState, i: nat, s': MergeState)
    requires i < |units| && IsSource(src, units[i]) && InText(src, s2) && units[i].start == s2.pos && HeadersApart(chunkSize, s2.chunks)
    requires s2.header != "" ==> Apart(chunkSize, Last(s2.chunks), if s2.from < s2.pos then s2.from else 0, s2.Len())
    requires s2.header != "" ==> Apart(chunkSize, Last(s2.chunks), s2.from, s2.Len() + |units[i].text|)
    requires s' == (if s2.Len() + |units[i].text| > ABSOLUTE_MAX then Emptied(src, s2) else s2).(pos := units[i].end)
    ensures StaysApart(src, units, chunkSize, s', i + 1)
  {
    hide HeadersApart, Emit, Apart;
    if s2.Len() + |units[i].text| > ABSOLUTE_MAX {
      EmitApart(src, chunkSize, s2);
    }
  }

  /** After making room, the header chunks are apart, and the pending one with the next unit will be. */
  lemma RoomApart(lex: Lexicon, src: string, units: seq<SplitUnit>, chunkSize: int, chunkOverlap: int, s: MergeState, i: nat, h: string, s2: MergeState)
    requires lex.Valid() && Tiles(src, units, 0, |src|) && i < |units| && StaysApart(src, units, chunkSize, s, i)
    requires RoomRel(lex, src, units, chunkSize, chunkOverlap, s, units[i], h, s2)
    requires h == "" || h == HeadersAfter(lex, units, i + 1)
    ensures InText(src, s2) && s2.pos == s.pos && HeadersApart(chunkSize, s2.chunks)
    ensures s2.header != "" ==> Apart(chunkSize, Last(s2.chunks), if s2.from < s2.pos then s2.from else 0, s2.Len())
    ensures s2.header != "" ==> Apart(chunkSize, Last(s2.chunks), s2.from, s2.Len() + |units[i].text|)
  {
    hide HeadersApart, OverlapStart;
    if s.Len() + |units[i].text| + |h| > chunkSize && !s.Empty() {
      if s2.header != "" {
        InjectedStaysApart(lex, src, units, chunkSize, chunkOverlap, s, i, units[i], h, s2);
      } else {
        EmitApart(src, chunkSize, s);
      }
    }
  }

  lemma PiecesApart(src: string, chunkSize: int, chunks: seq<Chunk>, u: SplitUnit, all: seq<Chunk>)
    requires HeadersApart(chunkSize, chunks) && chunks <= all && ChoppedInto(u, 0, |u.text|, |chunks|, all[|chunks|..])
    ensures HeadersApart(chunkSize, all)
  {
    PiecesPlain(u, 0, |chunks|, all[|chunks|..]);
    forall i | |chunks| <= i < |all| ensures all[i].synthetic == 0 {
      assert all[i] == all[|chunks|..][i - |chunks|];
    }
    forall i | 0 <= i < |all| && all[i].synthetic > 0
      ensures Apart(chunkSize, Last(all[..i]), all[i].start, |all[i].content|)
    {
      assert all[i] == chunks[i] && all[..i] == chunks[..i];
    }
  }

  lemma {:induction false} PiecesPlain(u: SplitUnit, from: int, seqNo: int, pieces: seq<Chunk>)
    requires ChoppedInto(u, from, |u.text|, seqNo, pieces)
    ensures forall i :: 0 <= i < |pieces| ==> pieces[i].synthetic == 0
    decreases |pieces|
  {
    if pieces == [] {
    } else {
      PiecesPlain(u, pieces[0].end - u.start, seqNo + 1, pieces[1..]);
      assert forall i :: 0 < i < |pieces| ==> pieces[i] == pieces[1..][i - 1];
    }
  }

  lemma {:induction false} RunApart(lex: Lexicon, src: string, units: seq<SplitUnit>, chunkSize: int, chunkOverlap: int, run: seq<MergeState>, i: nat)
    requires lex.Valid() && Tiles(src, units, 0, |src|)
    requires MergeRun(lex, src, units, chunkSize, chunkOverlap, run) && i < |run|
    ensures StaysApart(src, units, chunkSize, run[i], i)
  {
    hide StepRel, StaysApart;
    if i == 0 {
      NothingApart(src, units, chunkSize);
    } else {
      RunApart(lex, src, units, chunkSize, chunkOverlap, run, i - 1);
      StepApart(lex, src, units, chunkSize, chunkOverlap, run[i - 1], i - 1, run[i]);
    }
  }

  lemma NothingApart(src: string, units: seq<SplitUnit>, chunkSize: int)
    ensures StaysApart(src, units, chunkSize, MergeState([], "", 0, 0), 0)
  {
  }

  /**
   * Why an injected header never meets the merge guard, whatever the chunk size, even when the
   * hard ceiling leaves the header alone in its chunk: it was injected only because the flushed
   * chunk, the header and the incoming unit together exceeded the budget, and that chunk was
   * really emitted, since a blank unit would have ended the header.
   */
  lemma {:induction false} AllApart(lex: Lexicon, src: string, units: seq<SplitUnit>, chunkSize: int, chunkOverlap: int, run: seq<MergeState>)
    requires lex.Valid() && Tiles(src, units, 0, |src|)
    requires MergeRun(lex, src, units, chunkSize, chunkOverlap, run) && |run| == |units| + 1
    ensures InText(src, run[|units|]) && HeadersApart(chunkSize, Emit(src, run[|units|]))
  {
    hide MergeRun, HeadersApart, Apart;
    RunApart(lex, src, units, chunkSize, chunkOverlap, run, |units|);
    EmitApart(src, chunkSize, run[|units|]);
  }

  /** A header that was not pending before a unit is that of the table the unit is in. */
  lemma {:induction false} InjectedOfThisTable(lex: Lexicon, src: string, units: seq<SplitUnit>, chunkSize: int, chunkOverlap: int,
                                               run: seq<MergeState>, i: nat)
    returns (k: int)
    requires lex.Valid() && MergeRun(lex, src, units, chunkSize, chunkOverlap, run) && i + 1 < |run|
    requires run[i + 1].header != "" && run[i + 1].header != run[i].header
    ensures HeaderTrackers.HeaderSince(lex.tables, TextsOf(units[..i + 1]), k, run[i + 1].header)
  {
    InjectedByStep(lex, src, units, chunkSize, chunkOverlap, run[i], i, run[i + 1]);
    hide StepRel, TextsOf;
    k := HeaderTrackers.HeaderOfThisTable(lex.tables, TextsOf(units[..i + 1]));
  }

  lemma InjectedByStep(lex: Lexicon, src: string, units: seq<SplitUnit>, chunkSize: int, chunkOverlap: int,
                       s: MergeState, i: nat, s': MergeState)
    requires lex.Valid() && i < |units| && InText(src, s) && s'.header != "" && s'.header != s.header
    requires StepRel(lex, src, units, chunkSize, chunkOverlap, s, units[i], lex.Header(TextsOf(units[..i + 1])), s')
    ensures s'.header == HeadersAfter(lex, units, i + 1)
  {
    hide OverlapStart, Emit, HeaderTrackers.TablePatterns.Redundant, HeaderTrackers.TrackerAfter, TextsOf;
    var view := lex.Header(TextsOf(units[..i + 1]));
    var s2 := RoomOf(lex, src, units, chunkSize, chunkOverlap, s, units[i], view, s');
  }

  // ---- SplitText ------------------------------------------------------------

  /** No offset strictly inside a protected region that fits the hard cap. */
  predicate SafeCut(spans: seq<Span>, e: int) {
    forall j :: 0 <= j < |spans| && spans[j].end - spans[j].start <= ABSOLUTE_MAX ==> !(spans[j].start < e < spans[j].end)
  }

  lemma AllowedIsSafe(src: string, units: seq<SplitUnit>, spans: seq<Span>, e: int)
    requires Tiles(src, units, 0, |src|) && Atomic(units, spans) && CutAllowed(units, e)
    requires forall j :: 0 <= j < |spans| ==> 0 <= spans[j].start
    ensures SafeCut(spans, e)
  {
    if e != 0 {
      var i :| 0 <= i < |units| && CutsUnit(units[i], e);
      TilesAt(src, units, 0, |src|, i);
      forall j | 0 <= j < |spans| && spans[j].end - spans[j].start <= ABSOLUTE_MAX
        ensures !(spans[j].start < e < spans[j].end)
      {
        assert Respects(units[i], spans[j]);
      }
    }
  }

  /** e is inside the k-th stretch of plain text, where a separator cuts it. */
  ghost predicate InsideStretch(text: string, spans: seq<Span>, separators: seq<string>, chunkSize: int, e: int, k: int) {
    && 0 <= k <= |spans| && 0 <= StretchStart(spans, k) < e < StretchEnd(text, spans, k) <= |text|
    && CutReason(text[StretchStart(spans, k)..StretchEnd(text, spans, k)], separators, chunkSize, e - StretchStart(spans, k))
  }

  /** e is a cut point of the text from a to b, which no chunk can hold. */
  predicate OversizeCut(text: string, e: int, a: int, b: int) {
    0 <= a < e <= b <= |text| && b - a > ABSOLUTE_MAX && CutInside(text[a..b], e - a)
  }

  /**
   * Why a chunk ends at e: the text ends there, a protected region starts or ends, a separator
   * cuts, or a piece above the hard cap is cut; or the chunk has no source text at all.
   */
  ghost predicate EndReason(text: string, spans: seq<Span>, separators: seq<string>, chunkSize: int, e: int) {
    || e == 0 || e == |text|
    || (exists j :: 0 <= j < |spans| && (e == spans[j].start || e == spans[j].end))
    || (exists k :: InsideStretch(text, spans, separators, chunkSize, e, k))
    || (exists a, b :: OversizeCut(text, e, a, b))
  }

  lemma EndsHaveReasons(text: string, spans: seq<Span>, separators: seq<string>, chunkSize: int, units: seq<SplitUnit>, e: int)
    requires RegionsIn(text, spans) && Tiles(text, units, 0, |text|) && AllExplained(text, spans, separators, chunkSize, units)
    requires CutAllowed(units, e)
    ensures EndReason(text, spans, separators, chunkSize, e)
  {
    hide Tiles, IsCutPoint, CutReason, NoCut, Explained;
    if e != 0 {
      var i :| 0 <= i < |units| && CutsUnit(units[i], e);
      TileIn(text, units, 0, |text|, units[i]);
      if units[i].end == e {
        UnitEndReason(text, spans, separators, chunkSize, units[i]);
      } else {
        var from :| 0 <= from < e - units[i].start && IsCutPoint(units[i].text, from, e - units[i].start);
        CutPointRange(units[i].text, from, e - units[i].start);
        assert OversizeCut(text, e, units[i].start, units[i].end);
      }
    }
  }

  lemma UnitEndReason(text: string, spans: seq<Span>, separators: seq<string>, chunkSize: int, u: SplitUnit)
    requires RegionsIn(text, spans) && Explained(text, spans, separators, chunkSize, u)
    ensures EndReason(text, spans, separators, chunkSize, u.end)
  {
    hide IsCutPoint, CutReason, NoCut;
    if k :| FromStretch(text, spans, separators, chunkSize, u, k) {
      if u.end == StretchEnd(text, spans, k) {
        assert k < |spans| ==> u.end == spans[k].start;
      } else {
        assert InsideStretch(text, spans, separators, chunkSize, u.end, k);
      }
    } else {
      var j :| FromRegion(text, spans, u, j);
      if u.end != spans[j].end {
        assert CutInside(text[spans[j].start..spans[j].end], u.end - spans[j].start);
        assert OversizeCut(text, u.end, spans[j].start, spans[j].end);
      }
    }
  }

  /** The units are those of the text, cut by the configured separators. */
  ghost predicate UnitsOk(lex: Lexicon, text: string, cfg: Config, units: seq<SplitUnit>)
    requires lex.Valid()
  {
    var spans := ProtectedRunes(lex, text);
    && RegionsIn(text, spans) && units == UnitsOf(text, spans, cfg.separators, cfg.chunkSize)
    && Tiles(text, units, 0, |text|) && Atomic(units, spans) && AllExplained(text, spans, cfg.separators, cfg.chunkSize, units)
  }

  /** The chunks are what the merge of the text's units emits. */
  ghost predicate Merged(lex: Lexicon, text: string, cfg: Config, units: seq<SplitUnit>, chunks: seq<Chunk>)
    requires lex.Valid()
  {
    UnitsOk(lex, text, cfg, units)
    && exists run {:trigger MergeRun(lex, text, units, cfg.chunkSize, cfg.chunkOverlap, run)} ::
         |run| == |units| + 1 && MergeRun(lex, text, units, cfg.chunkSize, cfg.chunkOverlap, run) && chunks == Emit(text, run[|units|])
  }

  /** What the legacy tier promises of its chunks. */
  ghost predicate SplitOk(lex: Lexicon, text: string, cfg: Config, units: seq<SplitUnit>, chunks: seq<Chunk>)
    requires lex.Valid()
  {
    && AllVerbatim(text, chunks) && Covers(text, chunks) && DenseSeq(chunks)
    && (forall i :: 0 <= i < |chunks| ==>
          && WithinLimit(units, cfg.chunkSize, |chunks[i].content|)
          && SafeCut(ProtectedRunes(lex, text), chunks[i].end)
          && EndReason(text, ProtectedRunes(lex, text), cfg.separators, cfg.chunkSize, chunks[i].end)
          && (chunks[i].start < chunks[i].end || chunks[i].end == 0)
          && (Blank(chunks[i].content) ==> FromOversized(units, chunks[i]))
          && chunks[i].contextHeader == "" && chunks[i].pages.None?)
    && HeadersApart(cfg.chunkSize, chunks)
    && if text == "" then chunks == [] else Merged(lex, text, cfg, units, chunks)
  }

  /**
   * SplitText: verbatim slices that lose nothing, within the budget or one uncuttable unit,
   * each ending for a reason and never inside a protected region.
   */
  method SplitText(lex: Lexicon, text: string, config: Config)
    returns (chunks: seq<Chunk>, ghost units: seq<SplitUnit>)
    requires lex.Valid()
    ensures SplitOk(lex, text, EnsureDefaults(lex, config), units, chunks)
  {
    hide MergeRun, Emit, UnitsOk, HeadersApart, EndReason;
    if text == "" {
      NothingSplit(lex, EnsureDefaults(lex, config));
      return [], [];
    }
    var cfg := EnsureDefaults(lex, config);
    var spans := Resolve(lex, text);
    var us := BuildUnits(text, spans, cfg.separators, cfg.chunkSize);
    units := us;
    ghost var run;
    chunks, run := MergeUnits(lex, text, us, cfg.chunkSize, cfg.chunkOverlap);
    AllApart(lex, text, us, cfg.chunkSize, cfg.chunkOverlap, run);
    assert UnitsOk(lex, text, cfg, us) by { BuiltUnits(lex, text, cfg, spans, us); }
    MergedOk(lex, text, cfg, us, chunks);
  }

  lemma NothingSplit(lex: Lexicon, cfg: Config)
    requires lex.Valid()
    ensures SplitOk(lex, "", cfg, [], [])
  {
  }

  lemma BuiltUnits(lex: Lexicon, text: string, cfg: Config, spans: seq<Span>, units: seq<SplitUnit>)
    requires lex.Valid() && AllOnRunes(text, spans) && spans == Protected(lex, text)
    requires var rs := RuneSpans(text, spans);
             && RegionsIn(text, rs) && units == UnitsOf(text, rs, cfg.separators, cfg.chunkSize)
             && Tiles(text, units, 0, |text|) && Atomic(units, rs) && AllExplained(text, rs, cfg.separators, cfg.chunkSize, units)
    ensures UnitsOk(lex, text, cfg, units)
  {
    hide Tiles, Atomic, AllExplained, UnitsOf;
  }

  lemma MergedOk(lex: Lexicon, text: string, cfg: Config, units: seq<SplitUnit>, chunks: seq<Chunk>)
    requires lex.Valid() && text != "" && Merged(lex, text, cfg, units, chunks) && cfg.chunkSize >= 1
    requires Emitted(text, units, SizeCap(units, cfg.chunkSize), chunks, |text|) && Covers(text, chunks)
    requires HeadersApart(cfg.chunkSize, chunks)
    ensures SplitOk(lex, text, cfg, units, chunks)
  {
    hide MergeRun, Emit;
    ProtectedOnRunes(lex, text);
    forall i | 0 <= i < |chunks|
      ensures SafeCut(ProtectedRunes(lex, text), chunks[i].end)
      ensures EndReason(text, ProtectedRunes(lex, text), cfg.separators, cfg.chunkSize, chunks[i].end)
      ensures WithinLimit(units, cfg.chunkSize, |chunks[i].content|)
    {
      CappedIsWithin(units, cfg.chunkSize, |chunks[i].content|);
      AllowedIsSafe(text, units, ProtectedRunes(lex, text), chunks[i].end);
      EndsHaveReasons(text, ProtectedRunes(lex, text), cfg.separators, cfg.chunkSize, units, chunks[i].end);
    }
    hide ProtectedRunes, SafeCut, HeadersApart, CutAllowed, Covers, SizeCap, WithinLimit, EndReason, Merged;
  }
}
