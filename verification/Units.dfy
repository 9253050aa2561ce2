/** The unit list handed to the merger: plain text cut by separators, protected regions whole. */
module Units {
  import opened Text
  import opened Separators
  import opened Chunks
  import opened Lexicons
  import opened ProtectedSpans

  const ABSOLUTE_MAX: nat := 7500

  // ---- buildUnitsWithProtection -------------------------------------------

  predicate BreakRune(c: char) {
    c == '\n' || c == ' '
  }

  /**
   * Where an oversized region is cut: just after the last newline or space among the final
   * 200 runes before the hard cap, or at the cap when there is none.
   */
  predicate IsCutPoint(runes: string, offset: int, end: int) {
    && 0 <= offset < end <= |runes| && end <= offset + ABSOLUTE_MAX
    && (offset + ABSOLUTE_MAX > |runes| ==> end == |runes|)
    && (offset + ABSOLUTE_MAX <= |runes| ==>
          var cap := offset + ABSOLUTE_MAX;
          if exists i :: cap - 200 < i < cap && BreakRune(runes[i])
          then cap - 199 < end && BreakRune(runes[end - 1]) && forall i :: end <= i < cap ==> !BreakRune(runes[i])
          else end == cap)
  }

  /** The scan backwards from the cap, at rune i. */
  function CutScan(runes: string, cap: nat, i: int): (end: nat)
    requires 200 < cap <= |runes| && cap - 200 <= i < cap
    decreases i
  {
    if i <= cap - 200 then cap else if BreakRune(runes[i]) then i + 1 else CutScan(runes, cap, i - 1)
  }

  /** The one place where an oversized region is cut. */
  function CutEnd(runes: string, offset: nat): (end: nat)
    requires offset < |runes|
    ensures IsCutPoint(runes, offset, end)
  {
    if offset + ABSOLUTE_MAX > |runes| then |runes|
    else
      var cap := offset + ABSOLUTE_MAX;
      CutScanIs(runes, cap, cap - 1);
      CutScan(runes, cap, cap - 1)
  }

  lemma {:induction false} CutScanIs(runes: string, cap: nat, i: int)
    requires 200 < cap <= |runes| && cap - 200 <= i < cap && forall k :: i < k < cap ==> !BreakRune(runes[k])
    ensures var end := CutScan(runes, cap, i);
            if exists k :: cap - 200 < k < cap && BreakRune(runes[k])
            then cap - 199 < end <= cap && BreakRune(runes[end - 1]) && forall k :: end <= k < cap ==> !BreakRune(runes[k])
            else end == cap
    decreases i
  {
    if cap - 200 < i && !BreakRune(runes[i]) {
      CutScanIs(runes, cap, i - 1);
    }
  }

  lemma CutPointUnique(runes: string, offset: nat, a: int, b: int)
    requires IsCutPoint(runes, offset, a) && IsCutPoint(runes, offset, b)
    ensures a == b
  {
  }

  method CutPoint(runes: string, offset: nat) returns (end: nat)
    requires offset < |runes|
    ensures IsCutPoint(runes, offset, end) && end == CutEnd(runes, offset)
  {
    end := offset + ABSOLUTE_MAX;
    if end > |runes| {
      end := |runes|;
    } else {
      var i := end - 1;
      while i > offset && i > end - 200
        invariant offset <= i < end == offset + ABSOLUTE_MAX
        invariant forall k :: i < k < end ==> !BreakRune(runes[k])
      {
        if BreakRune(runes[i]) {
          end := i + 1;
          CutPointUnique(runes, offset, end, CutEnd(runes, offset));
          return;
        }
        i := i - 1;
      }
    }
    CutPointUnique(runes, offset, end, CutEnd(runes, offset));
  }

  // ---- which units there are ------------------------------------------------

  /** One unit per part, from offset a on. */
  function Placed(parts: seq<string>, a: nat): seq<SplitUnit> {
    if parts == [] then [] else [SplitUnit(parts[0], a, a + |parts[0]|)] + Placed(parts[1..], a + |parts[0]|)
  }

  /** The units of the plain text from a to b: cut by the separators in order of priority, as far as the budget demands. */
  function Plain(text: string, a: nat, b: nat, separators: seq<string>, chunkSize: int): seq<SplitUnit>
    requires a <= b <= |text|
  {
    if a == b then [] else Placed(CutRounds([text[a..b]], separators, chunkSize), a)
  }

  /** A region longer than the cap, cut at the cut points. */
  function Forced(runes: string, offset: nat): seq<string>
    requires offset <= |runes|
    decreases |runes| - offset
  {
    if offset == |runes| then [] else [runes[offset..CutEnd(runes, offset)]] + Forced(runes, CutEnd(runes, offset))
  }

  /** The units of a protected region: itself, unless it is longer than the cap. */
  function Region(text: string, s: Span): seq<SplitUnit>
    requires 0 <= s.start < s.end <= |text|
  {
    var runes := text[s.start..s.end];
    if |runes| <= ABSOLUTE_MAX then [SplitUnit(runes, s.start, s.end)] else Placed(Forced(runes, 0), s.start)
  }

  /** Protected regions in order within the text. */
  predicate RegionsIn(text: string, spans: seq<Span>) {
    Disjoint(spans) && forall i :: 0 <= i < |spans| ==> 0 <= spans[i].start && spans[i].end <= |text|
  }

  /** Where the k-th stretch of plain text starts: at the end of the region before it. */
  function StretchStart(spans: seq<Span>, k: nat): int
    requires k <= |spans|
  {
    if k == 0 then 0 else spans[k - 1].end
  }

  /** Where it ends: at the next region, or the end of the text. */
  function StretchEnd(text: string, spans: seq<Span>, k: nat): int
    requires k <= |spans|
  {
    if k < |spans| then spans[k].start else |text|
  }

  /** The units up to the end of the k-th region. */
  function UnitsBefore(text: string, spans: seq<Span>, separators: seq<string>, chunkSize: int, k: nat): seq<SplitUnit>
    requires RegionsIn(text, spans) && k <= |spans|
  {
    if k == 0 then []
    else
      UnitsBefore(text, spans, separators, chunkSize, k - 1)
      + Plain(text, StretchStart(spans, k - 1), spans[k - 1].start, separators, chunkSize)
      + Region(text, spans[k - 1])
  }

  /** All units: stretches of plain text and regions in turn. */
  function UnitsOf(text: string, spans: seq<Span>, separators: seq<string>, chunkSize: int): seq<SplitUnit>
    requires RegionsIn(text, spans)
  {
    UnitsBefore(text, spans, separators, chunkSize, |spans|)
    + Plain(text, StretchStart(spans, |spans|), |text|, separators, chunkSize)
  }

  lemma PlacedNext(units: seq<SplitUnit>, parts: seq<string>, a: nat)
    requires parts != []
    ensures units + Placed(parts, a) == (units + [SplitUnit(parts[0], a, a + |parts[0]|)]) + Placed(parts[1..], a + |parts[0]|)
  {
  }

  lemma RunesIn(text: string, spans: seq<Span>)
    requires AllOnRunes(text, spans) && Disjoint(spans)
    ensures RegionsIn(text, RuneSpans(text, spans))
  {
    RuneSpansDisjoint(text, spans);
    forall i | 0 <= i < |spans| ensures 0 <= RuneSpans(text, spans)[i].start && RuneSpans(text, spans)[i].end <= |text| {
      assert OnRunes(text, spans[i]) && RuneSpans(text, spans)[i] == RuneSpan(text, spans[i]);
    }
  }

  // ---- where every unit comes from ------------------------------------------

  /** u is cut from the k-th stretch of plain text: as fine as the separators allow, and it ends with the stretch or for a reason. */
  ghost predicate FromStretch(text: string, spans: seq<Span>, separators: seq<string>, chunkSize: int, u: SplitUnit, k: int) {
    && 0 <= k <= |spans| && 0 <= StretchStart(spans, k) <= u.start < u.end <= StretchEnd(text, spans, k) <= |text|
    && (|u.text| <= chunkSize || NoCut(u.text, separators))
    && (u.end == StretchEnd(text, spans, k)
        || CutReason(text[StretchStart(spans, k)..StretchEnd(text, spans, k)], separators, chunkSize, u.end - StretchStart(spans, k)))
  }

  /** u is the j-th region, or a piece of it when it is longer than the cap. */
  predicate FromRegion(text: string, spans: seq<Span>, u: SplitUnit, j: int) {
    && 0 <= j < |spans| && 0 <= spans[j].start <= u.start < u.end <= spans[j].end <= |text| && |u.text| <= ABSOLUTE_MAX
    && if spans[j].end - spans[j].start <= ABSOLUTE_MAX then u.start == spans[j].start && u.end == spans[j].end
       else IsCutPoint(text[spans[j].start..spans[j].end], u.start - spans[j].start, u.end - spans[j].start)
  }

  ghost predicate Explained(text: string, spans: seq<Span>, separators: seq<string>, chunkSize: int, u: SplitUnit) {
    || (exists k :: FromStretch(text, spans, separators, chunkSize, u, k))
    || (exists j :: FromRegion(text, spans, u, j))
  }

  ghost predicate AllExplained(text: string, spans: seq<Span>, separators: seq<string>, chunkSize: int, us: seq<SplitUnit>) {
    forall u :: u in us ==> Explained(text, spans, separators, chunkSize, u)
  }

  /** u lies wholly before, wholly after, or exactly on the span. */
  predicate Respects(u: SplitUnit, s: Span) {
    u.end <= s.start || s.end <= u.start || (u.start == s.start && u.end == s.end)
  }

  /** No unit tears a protected region that fits the hard cap. */
  predicate Atomic(us: seq<SplitUnit>, spans: seq<Span>) {
    forall i, j :: 0 <= i < |us| && 0 <= j < |spans| && spans[j].end - spans[j].start <= ABSOLUTE_MAX
                   ==> Respects(us[i], spans[j])
  }

  lemma ExplainedAtomic(text: string, spans: seq<Span>, separators: seq<string>, chunkSize: int, us: seq<SplitUnit>)
    requires RegionsIn(text, spans) && AllExplained(text, spans, separators, chunkSize, us)
    ensures Atomic(us, spans)
  {
    forall i, j | 0 <= i < |us| && 0 <= j < |spans| && spans[j].end - spans[j].start <= ABSOLUTE_MAX
      ensures Respects(us[i], spans[j])
    {
      hide NoCut, CutReason, IsCutPoint;
      assert Explained(text, spans, separators, chunkSize, us[i]);
      if k :| FromStretch(text, spans, separators, chunkSize, us[i], k) {
        if j < k { assert spans[j].end <= StretchStart(spans, k); } else { assert StretchEnd(text, spans, k) <= spans[j].start; }
      }
    }
  }

  lemma {:induction false} PlacedTiles(text: string, parts: seq<string>, a: nat)
    requires a + |Concat(parts)| <= |text| && text[a..a + |Concat(parts)|] == Concat(parts) && forall p :: p in parts ==> p != ""
    ensures Tiles(text, Placed(parts, a), a, a + |Concat(parts)|)
    ensures forall u :: u in Placed(parts, a) ==> u.text in parts && a <= u.start && u.end <= a + |Concat(parts)|
    decreases |parts|
  {
    if parts == [] {
    } else {
      PartSlices(text, a, parts);
      assert parts[0] in parts && forall p :: p in parts[1..] ==> p in parts;
      PlacedTiles(text, parts[1..], a + |parts[0]|);
    }
  }

  /** The reasons of the cuts between parts are reasons for where their units end. */
  lemma {:induction false} PlacedEnds(stretch: string, separators: seq<string>, chunkSize: int, o: nat, parts: seq<string>, a: nat, u: SplitUnit)
    requires Reasons(stretch, separators, chunkSize, o, parts) && u in Placed(parts, a)
    ensures u.end == a + |Concat(parts)| || CutReason(stretch, separators, chunkSize, o + u.end - a)
    decreases |parts|
  {
    hide CutReason;
    if u == Placed(parts, a)[0] {
      if |parts| == 1 {
        assert parts[1..] == [];
      }
    } else {
      PlacedEnds(stretch, separators, chunkSize, o + |parts[0]|, parts[1..], a + |parts[0]|, u);
    }
  }

  /** What the separators make of the text from a to b. */
  lemma PlainFacts(text: string, a: nat, b: nat, separators: seq<string>, chunkSize: int)
    requires a < b <= |text| && chunkSize >= 1
    ensures var us := Plain(text, a, b, separators, chunkSize);
            && Tiles(text, us, a, b)
            && forall u :: u in us ==>
                 && u.text != "" && a <= u.start && u.end <= b && (|u.text| <= chunkSize || NoCut(u.text, separators))
                 && (u.end == b || CutReason(text[a..b], separators, chunkSize, u.end - a))
  {
    hide NoCut, CutReason, Reasons, CutRounds, SplitBy, Tiles, Placed, Occurs;
    var stretch := text[a..b];
    var parts := CutRounds([stretch], separators, chunkSize);
    SplitByRounds(stretch, separators, chunkSize);
    SplitByCuts(stretch, separators, chunkSize);
    CutsHaveReasons(stretch, separators, chunkSize);
    PlacedTiles(text, parts, a);
    forall u | u in Placed(parts, a) ensures u.end == b || CutReason(stretch, separators, chunkSize, u.end - a) {
      PlacedEnds(stretch, separators, chunkSize, 0, parts, a, u);
    }
  }

  lemma StretchExplained(text: string, spans: seq<Span>, separators: seq<string>, chunkSize: int, k: nat)
    requires RegionsIn(text, spans) && k <= |spans| && chunkSize >= 1
    ensures 0 <= StretchStart(spans, k) <= StretchEnd(text, spans, k) <= |text|
    ensures var us := Plain(text, StretchStart(spans, k), StretchEnd(text, spans, k), separators, chunkSize);
            && Tiles(text, us, StretchStart(spans, k), StretchEnd(text, spans, k))
            && AllExplained(text, spans, separators, chunkSize, us)
  {
    hide CutReason, NoCut, Plain, Tiles, Explained, IsSource;
    var a, b := StretchStart(spans, k), StretchEnd(text, spans, k);
    if a < b {
      PlainFacts(text, a, b, separators, chunkSize);
      var us := Plain(text, a, b, separators, chunkSize);
      forall u | u in us ensures Explained(text, spans, separators, chunkSize, u) {
        TileIn(text, us, a, b, u);
        StretchUnit(text, spans, separators, chunkSize, k, u);
      }
    } else {
      NoPlain(text, a, separators, chunkSize);
    }
  }

  lemma StretchUnit(text: string, spans: seq<Span>, separators: seq<string>, chunkSize: int, k: nat, u: SplitUnit)
    requires k <= |spans| && 0 <= StretchStart(spans, k) <= u.start < u.end <= StretchEnd(text, spans, k) <= |text|
    requires |u.text| <= chunkSize || NoCut(u.text, separators)
    requires u.end == StretchEnd(text, spans, k)
             || CutReason(text[StretchStart(spans, k)..StretchEnd(text, spans, k)], separators, chunkSize, u.end - StretchStart(spans, k))
    ensures Explained(text, spans, separators, chunkSize, u)
  {
    hide CutReason, NoCut;
    assert FromStretch(text, spans, separators, chunkSize, u, k);
  }

  lemma TileIn(text: string, us: seq<SplitUnit>, a: int, b: int, u: SplitUnit)
    requires Tiles(text, us, a, b) && u in us
    ensures IsSource(text, u) && a <= u.start < u.end <= b
  {
    var i :| 0 <= i < |us| && us[i] == u;
    TilesAt(text, us, a, b, i);
  }

  lemma {:induction false} ForcedConcat(runes: string, offset: nat)
    requires offset <= |runes|
    ensures Concat(Forced(runes, offset)) == runes[offset..] && forall p :: p in Forced(runes, offset) ==> p != ""
    decreases |runes| - offset
  {
    hide IsCutPoint, CutEnd;
    if offset < |runes| {
      var e := CutEnd(runes, offset);
      CutPointRange(runes, offset, e);
      ForcedConcat(runes, e);
      assert runes[offset..] == runes[offset..e] + runes[e..];
      assert Forced(runes, offset)[1..] == Forced(runes, e);
    }
  }

  lemma {:induction false} ForcedCuts(runes: string, offset: nat, a: nat, u: SplitUnit)
    requires offset <= |runes| && u in Placed(Forced(runes, offset), a + offset)
    ensures IsCutPoint(runes, u.start - a, u.end - a) && |u.text| == u.end - u.start && a + offset <= u.start
    decreases |runes| - offset
  {
    hide IsCutPoint, CutEnd;
    var e := CutEnd(runes, offset);
    CutPointRange(runes, offset, e);
    assert Forced(runes, offset)[1..] == Forced(runes, e);
    if u != SplitUnit(runes[offset..e], a + offset, a + e) {
      ForcedCuts(runes, e, a, u);
    }
  }

  lemma CutPointRange(runes: string, offset: int, end: int)
    requires IsCutPoint(runes, offset, end)
    ensures 0 <= offset < end <= |runes| && end - offset <= ABSOLUTE_MAX
  {
  }

  lemma RegionExplained(text: string, spans: seq<Span>, separators: seq<string>, chunkSize: int, j: nat)
    requires RegionsIn(text, spans) && j < |spans|
    ensures Tiles(text, Region(text, spans[j]), spans[j].start, spans[j].end)
    ensures AllExplained(text, spans, separators, chunkSize, Region(text, spans[j]))
  {
    hide FromStretch, IsCutPoint, Placed, Forced;
    var s := spans[j];
    var us := Region(text, s);
    if s.end - s.start <= ABSOLUTE_MAX {
      assert us[1..] == [] && Tiles(text, us[1..], s.end, s.end);
      assert FromRegion(text, spans, us[0], j);
    } else {
      var runes := text[s.start..s.end];
      ForcedConcat(runes, 0);
      assert runes[0..] == runes;
      PlacedTiles(text, Forced(runes, 0), s.start);
      forall u | u in us ensures Explained(text, spans, separators, chunkSize, u) {
        ForcedCuts(runes, 0, s.start, u);
        CutPointRange(runes, u.start - s.start, u.end - s.start);
        assert FromRegion(text, spans, u, j);
      }
    }
  }

  lemma {:induction false} UnitsExplained(text: string, spans: seq<Span>, separators: seq<string>, chunkSize: int, k: nat)
    requires RegionsIn(text, spans) && k <= |spans| && chunkSize >= 1
    ensures var us := UnitsBefore(text, spans, separators, chunkSize, k);
            Tiles(text, us, 0, StretchStart(spans, k)) && AllExplained(text, spans, separators, chunkSize, us)
  {
    hide Plain, Region, Tiles, AllExplained;
    if k == 0 {
      NothingExplained(text, spans, separators, chunkSize);
    } else {
      UnitsExplained(text, spans, separators, chunkSize, k - 1);
      StretchExplained(text, spans, separators, chunkSize, k - 1);
      RegionExplained(text, spans, separators, chunkSize, k - 1);
      var us := UnitsBefore(text, spans, separators, chunkSize, k - 1);
      var plain := Plain(text, StretchStart(spans, k - 1), spans[k - 1].start, separators, chunkSize);
      TilesAppend(text, us, plain, 0, StretchStart(spans, k - 1), spans[k - 1].start);
      TilesAppend(text, us + plain, Region(text, spans[k - 1]), 0, spans[k - 1].start, spans[k - 1].end);
      ExplainedAppend(text, spans, separators, chunkSize, us, plain);
      ExplainedAppend(text, spans, separators, chunkSize, us + plain, Region(text, spans[k - 1]));
    }
  }

  lemma NothingExplained(text: string, spans: seq<Span>, separators: seq<string>, chunkSize: int)
    ensures Tiles(text, [], 0, 0) && AllExplained(text, spans, separators, chunkSize, [])
  {
  }

  lemma ExplainedAppend(text: string, spans: seq<Span>, separators: seq<string>, chunkSize: int, a: seq<SplitUnit>, b: seq<SplitUnit>)
    requires AllExplained(text, spans, separators, chunkSize, a) && AllExplained(text, spans, separators, chunkSize, b)
    ensures AllExplained(text, spans, separators, chunkSize, a + b)
  {
    hide Explained;
  }

  /**
   * The units tile the text, and every one of them is a protected region, a cut-point piece of
   * one above the cap, or plain text that ends at the next region or for a reason.
   */
  lemma AllUnitsExplained(text: string, spans: seq<Span>, separators: seq<string>, chunkSize: int)
    requires RegionsIn(text, spans) && chunkSize >= 1
    ensures var us := UnitsOf(text, spans, separators, chunkSize);
            Tiles(text, us, 0, |text|) && AllExplained(text, spans, separators, chunkSize, us) && Atomic(us, spans)
  {
    UnitsExplained(text, spans, separators, chunkSize, |spans|);
    StretchExplained(text, spans, separators, chunkSize, |spans|);
    hide Plain, Tiles, Atomic, UnitsBefore, AllExplained;
    ExplainedAppend(text, spans, separators, chunkSize, UnitsBefore(text, spans, separators, chunkSize, |spans|),
                    Plain(text, StretchStart(spans, |spans|), |text|, separators, chunkSize));
    TilesAppend(text, UnitsBefore(text, spans, separators, chunkSize, |spans|),
                Plain(text, StretchStart(spans, |spans|), |text|, separators, chunkSize), 0, StretchStart(spans, |spans|), |text|);
    ExplainedAtomic(text, spans, separators, chunkSize, UnitsOf(text, spans, separators, chunkSize));
  }

  // ---- buildUnitsWithProtection ---------------------------------------------

  /** Appends one unit per part, at running rune offsets. */
  method AppendParts(units: seq<SplitUnit>, parts: seq<string>, at: nat) returns (units': seq<SplitUnit>, end: nat)
    ensures units' == units + Placed(parts, at) && end == at + |Concat(parts)|
  {
    units', end := units, at;
    assert parts[0..] == parts;
    for i := 0 to |parts|
      invariant end + |Concat(parts[i..])| == at + |Concat(parts)|
      invariant units' + Placed(parts[i..], end) == units + Placed(parts, at)
    {
      var part := parts[i];
      PlacedNext(units', parts[i..], end);
      assert parts[i..][1..] == parts[i + 1..];
      units' := units' + [SplitUnit(part, end, end + |part|)];
      end := end + |part|;
    }
    assert parts[|parts|..] == [] && units' + [] == units';
  }

  /** Appends a protected region longer than the cap in pieces that fit it. */
  method AppendForced(runes: string, units: seq<SplitUnit>, at: nat) returns (units': seq<SplitUnit>)
    ensures units' == units + Placed(Forced(runes, 0), at)
  {
    units' := units;
    var offset := 0;
    while offset < |runes|
      invariant 0 <= offset <= |runes|
      invariant units' + Placed(Forced(runes, offset), at + offset) == units + Placed(Forced(runes, 0), at)
    {
      var chunkEnd := CutPoint(runes, offset);
      ForcedNext(runes, offset, at, units');
      units' := units' + [SplitUnit(runes[offset..chunkEnd], at + offset, at + chunkEnd)];
      offset := chunkEnd;
    }
    assert units' + [] == units';
  }

  lemma ForcedNext(runes: string, offset: nat, a: nat, units: seq<SplitUnit>)
    requires offset < |runes|
    ensures var e := CutEnd(runes, offset);
            units + Placed(Forced(runes, offset), a + offset)
            == (units + [SplitUnit(runes[offset..e], a + offset, a + e)]) + Placed(Forced(runes, e), a + e)
  {
    hide IsCutPoint, CutEnd;
    CutPointRange(runes, offset, CutEnd(runes, offset));
    assert Forced(runes, offset)[1..] == Forced(runes, CutEnd(runes, offset));
    PlacedNext(units, Forced(runes, offset), a + offset);
  }

  /** Appends one protected region, whole when it fits the cap. */
  method AppendSpan(text: string, units: seq<SplitUnit>, p: Span, at: nat) returns (units': seq<SplitUnit>, end: nat)
    requires OnRunes(text, p) && p.start < p.end && at == RuneAt(text, p.start)
    ensures end == RuneAt(text, p.end) && at < end && units' == units + Region(text, Span(at, end))
  {
    RuneAtOrder(text, p.start, p.end);
    var protText := ByteSlice(text, p.start, p.end);
    end := at + |protText|;
    if |protText| > ABSOLUTE_MAX {
      units' := AppendForced(protText, units, at);
    } else {
      units' := units + [SplitUnit(protText, at, end)];
    }
  }

  /** Splits the unprotected text between two byte offsets by separators. */
  method AppendPlain(text: string, units: seq<SplitUnit>, b0: int, b1: int, at: nat, separators: seq<string>, chunkSize: int)
    returns (units': seq<SplitUnit>, end: nat)
    requires at <= |text| && ByteAt(text, at) == b0 < b1 && OnBoundary(text, b1) && chunkSize >= 1
    ensures end == RuneAt(text, b1) && at < end && units' == units + Plain(text, at, end, separators, chunkSize)
  {
    hide SplitBy, CutRounds;
    assert OnBoundary(text, b0);
    RuneAtOrder(text, b0, b1);
    RuneAtUnique(text, b0);
    var pre := ByteSlice(text, b0, b1);
    var parts := SplitBy(pre, separators, chunkSize);
    SplitByCuts(pre, separators, chunkSize);
    SplitByRounds(pre, separators, chunkSize);
    units', end := AppendParts(units, parts, at);
  }

  lemma NoPlain(text: string, a: nat, separators: seq<string>, chunkSize: int)
    requires a <= |text|
    ensures Plain(text, a, a, separators, chunkSize) == [] && Tiles(text, [], a, a)
  {
  }

  /** One step of the unit builder: the plain text before region k, then the region. */
  method AppendRegion(text: string, units: seq<SplitUnit>, spans: seq<Span>, k: nat, bytePos: int, at: nat,
                      separators: seq<string>, chunkSize: int)
    returns (units': seq<SplitUnit>, end: nat)
    requires Disjoint(spans) && AllOnRunes(text, spans) && RegionsIn(text, RuneSpans(text, spans)) && k < |spans| && chunkSize >= 1
    requires at <= |text| && ByteAt(text, at) == bytePos && bytePos == if k == 0 then 0 else spans[k - 1].end
    requires at == StretchStart(RuneSpans(text, spans), k)
    requires units == UnitsBefore(text, RuneSpans(text, spans), separators, chunkSize, k)
    ensures end == RuneSpans(text, spans)[k].end
    ensures units' == UnitsBefore(text, RuneSpans(text, spans), separators, chunkSize, k + 1)
  {
    hide Plain, Region;
    ghost var rs := RuneSpans(text, spans);
    var p := spans[k];
    assert OnRunes(text, p) && rs[k] == RuneSpan(text, p);
    RuneAtUnique(text, p.start);
    units', end := units, at;
    assert OnBoundary(text, 0) by { assert text[..0] == ""; assert ByteAt(text, 0) == 0; }
    if p.start > bytePos {
      units', end := AppendPlain(text, units, bytePos, p.start, at, separators, chunkSize);
    } else {
      assert bytePos == p.start by { RuneAtOrder(text, 0, p.start); }
      NoPlain(text, at, separators, chunkSize);
    }
    units', end := AppendSpan(text, units', p, end);
  }

  /** The plain text after the last region. */
  method AppendTail(text: string, units: seq<SplitUnit>, bytePos: int, at: nat, separators: seq<string>, chunkSize: int)
    returns (units': seq<SplitUnit>)
    requires at <= |text| && ByteAt(text, at) == bytePos && chunkSize >= 1
    ensures units' == units + Plain(text, at, |text|, separators, chunkSize)
  {
    hide Plain;
    WholeBytes(text);
    units' := units;
    if bytePos < ByteLen(text) {
      var end: nat;
      RuneAtUnique(text, ByteLen(text));
      units', end := AppendPlain(text, units, bytePos, ByteLen(text), at, separators, chunkSize);
    } else {
      if at < |text| {
        ByteAtMonotone(text, at, |text|);
      }
      NoPlain(text, at, separators, chunkSize);
    }
  }

  lemma WholeBytes(text: string)
    ensures ByteAt(text, |text|) == ByteLen(text)
  {
    assert text[..|text|] == text;
  }

  /**
   * The units are those of plain text and regions in turn, in exact rune offsets, though the
   * spans come in bytes.
   */
  method BuildUnits(text: string, spans: seq<Span>, separators: seq<string>, chunkSize: int)
    returns (units: seq<SplitUnit>)
    requires Disjoint(spans) && AllOnRunes(text, spans) && chunkSize >= 1
    ensures RegionsIn(text, RuneSpans(text, spans)) && units == UnitsOf(text, RuneSpans(text, spans), separators, chunkSize)
    ensures Tiles(text, units, 0, |text|) && Atomic(units, RuneSpans(text, spans))
    ensures AllExplained(text, RuneSpans(text, spans), separators, chunkSize, units)
  {
    hide UnitsBefore, Plain, AllExplained, Atomic, Tiles;
    units := [];
    ghost var rs := RuneSpans(text, spans);
    RunesIn(text, spans);
    NoUnitsYet(text, rs, separators, chunkSize);
    var bytePos: int, runePos: nat := 0, 0;
    assert text[..0] == "";
    for k := 0 to |spans|
      invariant runePos <= |text| && ByteAt(text, runePos) == bytePos
      invariant bytePos == if k == 0 then 0 else spans[k - 1].end
      invariant runePos == StretchStart(rs, k) && units == UnitsBefore(text, rs, separators, chunkSize, k)
    {
      units, runePos := AppendRegion(text, units, spans, k, bytePos, runePos, separators, chunkSize);
      bytePos := spans[k].end;
      assert OnRunes(text, spans[k]) && runePos == RuneSpan(text, spans[k]).end;
    }
    units := AppendTail(text, units, bytePos, runePos, separators, chunkSize);
    AllUnitsExplained(text, rs, separators, chunkSize);
  }

  lemma NoUnitsYet(text: string, spans: seq<Span>, separators: seq<string>, chunkSize: int)
    requires RegionsIn(text, spans)
    ensures UnitsBefore(text, spans, separators, chunkSize, 0) == []
  {
  }
}
