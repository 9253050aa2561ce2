/** Page-range sharding: fixed windows, chapter-aligned windows, and the retry ladder. */
module Sharding {
  import opened Numbers
  import opened Sorting

  datatype Result<+T, +E> = Ok(value: T) | Err(error: E)

  datatype SplitError = BadPageCount(n: int) | BadShardPages(n: int)

  /** One shard's inclusive range of 1-based pages. */
  datatype ShardBound = ShardBound(idx: int, pageStart: int, pageEnd: int)

  // ---- FixedBounds ----------------------------------------------------------

  /** The window that starts at a page. */
  predicate IsWindow(b: ShardBound, pageCount: int, shardPages: int) {
    1 <= b.pageStart <= b.pageEnd && b.pageEnd == Min(b.pageStart + shardPages - 1, pageCount)
  }

  /** The next window: shifted back by the overlap, but always past the start of this one. */
  predicate NextWindow(b: ShardBound, next: ShardBound, pageCount: int, overlap: int) {
    b.pageEnd < pageCount && next.pageStart == Max(b.pageEnd + 1 - overlap, b.pageStart + 1)
  }

  /** Windows from page 1, one after the other, none of them but the last reaching the end. */
  predicate Windows(bs: seq<ShardBound>, pageCount: int, shardPages: int, overlap: int) {
    && (bs != [] ==> bs[0].pageStart == 1)
    && (forall i :: 0 <= i < |bs| ==> bs[i].idx == i && IsWindow(bs[i], pageCount, shardPages))
    && (forall i, j :: 0 <= i < |bs| && j == i + 1 && j < |bs| ==> NextWindow(bs[i], bs[j], pageCount, overlap))
  }

  /** The windows are complete: the loop ended because the last one left no page to start another. */
  predicate Complete(bs: seq<ShardBound>, pageCount: int, overlap: int) {
    bs != [] && (var b := bs[|bs| - 1]; b.pageEnd == pageCount || Max(b.pageEnd + 1 - overlap, b.pageStart + 1) > pageCount)
  }

  /** FixedBounds; the loop ends for every overlap because each window starts past the one before. */
  method FixedBounds(pageCount: int, shardPages: int, overlap: int) returns (r: Result<seq<ShardBound>, SplitError>)
    ensures if pageCount < 1 then r == Err(BadPageCount(pageCount))
            else if shardPages < 1 then r == Err(BadShardPages(shardPages))
            else r.Ok? && Windows(r.value, pageCount, shardPages, overlap) && Complete(r.value, pageCount, overlap)
  {
    if pageCount < 1 {
      return Err(BadPageCount(pageCount));
    }
    if shardPages < 1 {
      return Err(BadShardPages(shardPages));
    }
    var bounds: seq<ShardBound> := [];
    var start, idx := 1, 0;
    while start <= pageCount
      invariant idx == |bounds| && start >= 1 && Windows(bounds, pageCount, shardPages, overlap)
      invariant if bounds == [] then start == 1 else
                  var b := bounds[|bounds| - 1];
                  if b.pageEnd == pageCount then start == pageCount + 1
                  else b.pageEnd < pageCount && start == Max(b.pageEnd + 1 - overlap, b.pageStart + 1)
      decreases pageCount + 1 - start
    {
      var end := start + shardPages - 1;
      if end > pageCount {
        end := pageCount;
      }
      ghost var before := bounds;
      bounds := bounds + [ShardBound(idx, start, end)];
      WindowsSnoc(before, ShardBound(idx, start, end), pageCount, shardPages, overlap);
      idx := idx + 1;
      if end < pageCount {
        start := end + 1 - overlap;
      } else {
        start := end + 1;
      }
      if start <= bounds[|bounds| - 1].pageStart && end < pageCount {
        start := bounds[|bounds| - 1].pageStart + 1;
      }
    }
    r := Ok(bounds);
  }

  lemma WindowsSnoc(bs: seq<ShardBound>, b: ShardBound, pageCount: int, shardPages: int, overlap: int)
    requires Windows(bs, pageCount, shardPages, overlap) && b.idx == |bs| && IsWindow(b, pageCount, shardPages)
    requires if bs == [] then b.pageStart == 1 else NextWindow(bs[|bs| - 1], b, pageCount, overlap)
    ensures Windows(bs + [b], pageCount, shardPages, overlap)
  {
    hide IsWindow, NextWindow;
  }

  predicate InWindow(bs: seq<ShardBound>, p: int) {
    exists i :: 0 <= i < |bs| && bs[i].pageStart <= p <= bs[i].pageEnd
  }

  predicate CoversPages(bs: seq<ShardBound>, from: int, to: int) {
    forall p :: from <= p <= to ==> InWindow(bs, p)
  }

  /** Without a gap between windows, every page up to the last end is in one. */
  lemma {:induction false} GaplessCovers(bs: seq<ShardBound>, from: int, n: nat)
    requires n <= |bs| && bs != [] && bs[0].pageStart <= from
    requires forall i, j :: 0 <= i < |bs| && j == i + 1 && j < |bs| ==> bs[j].pageStart <= bs[i].pageEnd + 1
    ensures n > 0 ==> CoversPages(bs, from, bs[n - 1].pageEnd)
  {
    if n > 1 {
      GaplessCovers(bs, from, n - 1);
      var b := bs[n - 1];
      forall p | from <= p <= b.pageEnd ensures InWindow(bs, p) {
        if p > bs[n - 2].pageEnd {
          assert b.pageStart <= p <= b.pageEnd;
        }
      }
    } else if n == 1 {
      forall p | from <= p <= bs[0].pageEnd ensures InWindow(bs, p) {
        assert bs[0].pageStart <= p <= bs[0].pageEnd;
      }
    }
  }

  /** Every page is in some shard exactly when the overlap is not negative or one window is enough. */
  lemma FixedCovers(bs: seq<ShardBound>, pageCount: int, shardPages: int, overlap: int)
    requires pageCount >= 1 && shardPages >= 1
    requires Windows(bs, pageCount, shardPages, overlap) && Complete(bs, pageCount, overlap)
    ensures CoversPages(bs, 1, pageCount) <==> overlap >= 0 || shardPages >= pageCount
  {
    assert IsWindow(bs[0], pageCount, shardPages) && IsWindow(bs[|bs| - 1], pageCount, shardPages);
    if overlap >= 0 {
      forall i, j | 0 <= i < |bs| && j == i + 1 && j < |bs| ensures bs[j].pageStart <= bs[i].pageEnd + 1 {
        assert NextWindow(bs[i], bs[j], pageCount, overlap) && IsWindow(bs[i], pageCount, shardPages);
      }
      GaplessCovers(bs, 1, |bs|);
    } else if shardPages >= pageCount {
      assert bs[0].pageEnd == pageCount;
      forall p | 1 <= p <= pageCount ensures InWindow(bs, p) {
      }
    } else {
      SkipsAPage(bs, pageCount, shardPages, overlap);
    }
  }

  lemma SkipsAPage(bs: seq<ShardBound>, pageCount: int, shardPages: int, overlap: int)
    requires 1 <= shardPages < pageCount && overlap < 0
    requires Windows(bs, pageCount, shardPages, overlap) && Complete(bs, pageCount, overlap)
    ensures !InWindow(bs, shardPages + 1)
  {
    assert IsWindow(bs[0], pageCount, shardPages);
    if |bs| > 1 {
      assert NextWindow(bs[0], bs[1], pageCount, overlap);
    }
    forall i | 1 <= i < |bs| ensures bs[i].pageStart > shardPages + 1 {
      StartsGrow(bs, pageCount, shardPages, overlap, 1, i);
    }
  }

  lemma {:induction false} StartsGrow(bs: seq<ShardBound>, pageCount: int, shardPages: int, overlap: int, i: nat, j: nat)
    requires Windows(bs, pageCount, shardPages, overlap) && i <= j < |bs|
    ensures bs[i].pageStart + (j - i) <= bs[j].pageStart
  {
    if i == j {
    } else {
      StartsGrow(bs, pageCount, shardPages, overlap, i, j - 1);
      assert NextWindow(bs[j - 1], bs[j], pageCount, overlap);
    }
  }

  /** A disjoint tiling of from..to by windows of at most shardPages pages. */
  predicate Tiling(bs: seq<ShardBound>, from: int, to: int, shardPages: int) {
    && (forall i :: 0 <= i < |bs| ==> bs[i].idx == i && from <= bs[i].pageStart <= bs[i].pageEnd <= to
                                       && bs[i].pageEnd - bs[i].pageStart < shardPages)
    && (forall i, j :: 0 <= i < |bs| && j == i + 1 && j < |bs| ==> bs[j].pageStart == bs[i].pageEnd + 1)
    && (if bs == [] then to == from - 1 else bs[0].pageStart == from && bs[|bs| - 1].pageEnd == to)
  }

  /** Overlap 0 tiles the pages with the fewest windows: the page count divided by the size, rounded up. */
  lemma NoOverlapTiles(bs: seq<ShardBound>, pageCount: int, shardPages: int)
    requires pageCount >= 1 && shardPages >= 1
    requires Windows(bs, pageCount, shardPages, 0) && Complete(bs, pageCount, 0)
    ensures Tiling(bs, 1, pageCount, shardPages)
    ensures |bs| == (pageCount + shardPages - 1) / shardPages
    ensures forall i :: 0 <= i < |bs| ==> bs[i].pageStart == 1 + i * shardPages
  {
    forall i | 0 <= i < |bs| ensures bs[i].pageStart == 1 + i * shardPages && IsWindow(bs[i], pageCount, shardPages) {
      WindowAt(bs, pageCount, shardPages, i);
    }
    forall i, j | 0 <= i < |bs| && j == i + 1 && j < |bs| ensures bs[j].pageStart == bs[i].pageEnd + 1 {
      assert NextWindow(bs[i], bs[j], pageCount, 0);
    }
    var n := |bs|;
    var start := 1 + (n - 1) * shardPages;
    assert bs[n - 1].pageStart == start;
    RoundsUp(pageCount, shardPages, n);
  }

  lemma {:induction false} WindowAt(bs: seq<ShardBound>, pageCount: int, shardPages: int, i: nat)
    requires pageCount >= 1 && shardPages >= 1 && Windows(bs, pageCount, shardPages, 0) && i < |bs|
    ensures bs[i].pageStart == 1 + i * shardPages && IsWindow(bs[i], pageCount, shardPages)
  {
    if i == 0 {
    } else {
      WindowAt(bs, pageCount, shardPages, i - 1);
      assert NextWindow(bs[i - 1], bs[i], pageCount, 0);
      assert 1 + (i - 1) * shardPages + shardPages == 1 + i * shardPages;
    }
  }

  lemma RoundsUp(pages: int, size: int, n: int)
    requires size >= 1 && n >= 1 && 1 + (n - 1) * size <= pages <= (n - 1) * size + size
    ensures n == (pages + size - 1) / size
  {
    var q, r := (pages + size - 1) / size, (pages + size - 1) % size;
    assert n * size == (n - 1) * size + size;
    assert n * size <= pages + size - 1 < n * size + size;
    if q < n {
      Grows(q + 1, n, size);
    } else if q > n {
      Grows(n + 1, q, size);
    }
  }

  lemma Grows(a: int, b: int, c: int)
    requires a <= b && c >= 1
    ensures a * c <= b * c
  {
  }

  /** Two tilings of adjacent ranges make one. */
  lemma TilingsJoin(a: seq<ShardBound>, b: seq<ShardBound>, from: int, mid: int, to: int, shardPages: int)
    requires Tiling(a, from, mid, shardPages) && from - 1 <= mid <= to
    requires |b| > 0 && b[0].pageStart == mid + 1 && b[|b| - 1].pageEnd == to
    requires forall i :: 0 <= i < |b| ==> b[i].idx == |a| + i && mid < b[i].pageStart <= b[i].pageEnd <= to
                                            && b[i].pageEnd - b[i].pageStart < shardPages
    requires forall i, j :: 0 <= i < |b| && j == i + 1 && j < |b| ==> b[j].pageStart == b[i].pageEnd + 1
    ensures Tiling(a + b, from, to, shardPages)
  {
    var all := a + b;
    forall i, j | 0 <= i < |all| && j == i + 1 && j < |all| ensures all[j].pageStart == all[i].pageEnd + 1 {
      if j < |a| {
      } else if i >= |a| {
        assert b[j - |a|].pageStart == b[i - |a|].pageEnd + 1;
      }
    }
  }

  /** Shards are cut short only by the end of the pages or before one of the given pages. */
  ghost predicate Full(bs: seq<ShardBound>, to: int, shardPages: int, starts: set<int>) {
    forall i :: 0 <= i < |bs| ==> bs[i].pageEnd - bs[i].pageStart + 1 == shardPages || bs[i].pageEnd == to || bs[i].pageEnd + 1 in starts
  }

  lemma WindowsFull(bs: seq<ShardBound>, pageCount: int, shardPages: int)
    requires pageCount >= 1 && shardPages >= 1 && Windows(bs, pageCount, shardPages, 0)
    ensures Full(bs, pageCount, shardPages, {})
  {
    forall i | 0 <= i < |bs| ensures bs[i].pageEnd - bs[i].pageStart + 1 == shardPages || bs[i].pageEnd == pageCount {
      WindowAt(bs, pageCount, shardPages, i);
    }
  }

  predicate Shifted(fb: seq<ShardBound>, bs: seq<ShardBound>, first: int, d: int) {
    |bs| == |fb| && forall k :: 0 <= k < |fb| ==> bs[k] == ShardBound(first + k, fb[k].pageStart + d, fb[k].pageEnd + d)
  }

  lemma ShiftedFull(fb: seq<ShardBound>, bs: seq<ShardBound>, first: int, d: int, to: int, shardPages: int)
    requires Shifted(fb, bs, first, d) && Full(fb, to, shardPages, {})
    ensures Full(bs, to + d, shardPages, {})
  {
    forall i | 0 <= i < |bs| ensures bs[i].pageEnd - bs[i].pageStart + 1 == shardPages || bs[i].pageEnd == to + d {
      assert fb[i].pageEnd - fb[i].pageStart + 1 == shardPages || fb[i].pageEnd == to;
    }
  }

  lemma ShiftedTiling(fb: seq<ShardBound>, bs: seq<ShardBound>, d: int, to: int, shardPages: int)
    requires Shifted(fb, bs, 0, d) && Tiling(fb, 1, to, shardPages)
    ensures Tiling(bs, 1 + d, to + d, shardPages)
  {
    forall i, j | 0 <= i < |bs| && j == i + 1 && j < |bs| ensures bs[j].pageStart == bs[i].pageEnd + 1 {
      assert fb[j].pageStart == fb[i].pageEnd + 1;
    }
  }

  /** Neighbouring windows share exactly the overlap when it is shorter than a window. */
  lemma OverlapShared(bs: seq<ShardBound>, pageCount: int, shardPages: int, overlap: int, i: nat)
    requires Windows(bs, pageCount, shardPages, overlap) && 0 <= overlap < shardPages && i + 1 < |bs|
    ensures bs[i].pageEnd - bs[i + 1].pageStart + 1 == overlap
  {
    assert IsWindow(bs[i], pageCount, shardPages) && NextWindow(bs[i], bs[i + 1], pageCount, overlap);
  }

  // ---- ChapterAlignedBounds -------------------------------------------------

  datatype Bookmark = Bookmark(page: int, title: string)

  /** A bookmark's page, moved into the document. */
  function ClampPage(page: int, pageCount: int): int {
    var p := if page < 1 then 1 else page;
    if p > pageCount then pageCount else p
  }

  predicate StartsShard(bs: seq<ShardBound>, p: int) {
    exists i :: 0 <= i < |bs| && bs[i].pageStart == p
  }

  /** Fixed windows without overlap over from..to, appended with running indices. */
  method AppendWindows(bounds: seq<ShardBound>, from: int, to: int, shardPages: int) returns (out: seq<ShardBound>)
    requires Tiling(bounds, 1, from - 1, shardPages) && 1 <= from <= to && shardPages >= 1
    ensures Tiling(out, 1, to, shardPages) && bounds <= out && |bounds| < |out| && out[|bounds|].pageStart == from
    ensures Full(out[|bounds|..], to, shardPages, {})
  {
    hide Windows, Complete, Full, Tiling;
    var fb := FixedBounds(to - from + 1, shardPages, 0);
    NoOverlapTiles(fb.value, to - from + 1, shardPages);
    WindowsFull(fb.value, to - from + 1, shardPages);
    var added := MoveWindows(fb.value, |bounds|, from - 1);
    out := bounds + added;
    assert out[|bounds|..] == added;
    ShiftedFull(fb.value, added, |bounds|, from - 1, to - from + 1, shardPages);
    WindowsJoin(bounds, fb.value, added, from, to, shardPages);
  }

  method MoveWindows(fb: seq<ShardBound>, first: int, d: int) returns (added: seq<ShardBound>)
    ensures Shifted(fb, added, first, d)
  {
    added := [];
    for i := 0 to |fb|
      invariant |added| == i
      invariant forall k :: 0 <= k < i ==> added[k] == ShardBound(first + k, fb[k].pageStart + d, fb[k].pageEnd + d)
    {
      added := added + [ShardBound(first + i, fb[i].pageStart + d, fb[i].pageEnd + d)];
    }
  }

  /** Windows moved behind a tiling continue it. */
  lemma WindowsJoin(bounds: seq<ShardBound>, fb: seq<ShardBound>, added: seq<ShardBound>, from: int, to: int, shardPages: int)
    requires Tiling(bounds, 1, from - 1, shardPages) && 1 <= from <= to
    requires Tiling(fb, 1, to - from + 1, shardPages) && Shifted(fb, added, |bounds|, from - 1)
    ensures Tiling(bounds + added, 1, to, shardPages) && added != [] && added[0].pageStart == from
  {
    forall i, j | 0 <= i < |added| && j == i + 1 && j < |added| ensures added[j].pageStart == added[i].pageEnd + 1 {
      assert fb[j].pageStart == fb[i].pageEnd + 1;
    }
    TilingsJoin(bounds, added, 1, from - 1, to, shardPages);
  }

  method CleanPages(outline: seq<Bookmark>, pageCount: int) returns (pages: seq<int>)
    ensures Ascending(pages) && forall p :: p in pages <==> exists k :: 0 <= k < |outline| && ClampPage(outline[k].page, pageCount) == p
  {
    var clean: map<int, string> := map[];
    for i := 0 to |outline|
      invariant forall p :: p in clean <==> exists k :: 0 <= k < i && ClampPage(outline[k].page, pageCount) == p
    {
      var p := outline[i].page;
      if p < 1 {
        p := 1;
      }
      if p > pageCount {
        p := pageCount;
      }
      assert p == ClampPage(outline[i].page, pageCount);
      if p !in clean || outline[i].title != "" {
        clean := clean[p := outline[i].title];
      }
    }
    pages := SortedKeys(clean.Keys);
  }

  /**
   * ChapterAlignedBounds: whatever the outline, the pages are tiled and every clamped bookmark
   * starts a shard; the fallback to plain windows is never reached. A document without pages is
   * rejected when it has no outline, and otherwise gets one shard on a page that does not exist.
   */
  method ChapterAlignedBounds(outline: seq<Bookmark>, pageCount: int, shardPages: int) returns (r: Result<seq<ShardBound>, SplitError>)
    ensures pageCount >= 1 ==>
              && r.Ok? && r.value != [] && Tiling(r.value, 1, pageCount, Max(1, shardPages))
              && (forall k :: 0 <= k < |outline| ==> StartsShard(r.value, ClampPage(outline[k].page, pageCount)))
              && Full(r.value, pageCount, Max(1, shardPages), set k | 0 <= k < |outline| :: ClampPage(outline[k].page, pageCount))
    ensures pageCount < 1 ==>
              r == if outline == [] then Err(BadPageCount(pageCount)) else Ok([ShardBound(0, pageCount, pageCount)])
  {
    hide Full, FullBefore;
    var size := if shardPages < 1 then 1 else shardPages;
    var pages := CleanPages(outline, pageCount);
    if pageCount < 1 {
      r := Pageless(outline, pages, pageCount, size);
      return;
    }
    var bounds: seq<ShardBound> := [];
    ghost var starts := set k | 0 <= k < |outline| :: ClampPage(outline[k].page, pageCount);
    var prevStart := 1;
    FullNone(size, starts);
    forall k | 0 <= k < |pages| ensures pages[k] in starts {
      assert pages[k] in pages;
    }
    for i := 0 to |pages|
      invariant forall k :: 0 <= k < |pages| ==> pages[k] in starts
      invariant FullBefore(bounds, prevStart, size, starts)
      invariant 1 <= prevStart <= pageCount && Tiling(bounds, 1, prevStart - 1, size)
      invariant prevStart == if i > 0 then pages[i - 1] else 1
      invariant forall k :: 0 <= k < i ==> pages[k] == prevStart || StartsShard(bounds, pages[k])
    {
      var page := pages[i];
      assert 1 <= page <= pageCount && page >= prevStart by {
        assert page in pages;
        assert i > 0 ==> pages[i - 1] < pages[i];
      }
      if page > prevStart {
        ghost var before := bounds;
        bounds := AppendWindows(bounds, prevStart, page - 1, size);
        StartsKept(before, bounds, pages, i, prevStart);
        FullMore(before, bounds, prevStart, page, size, starts);
      }
      prevStart := page;
    }
    ghost var before := bounds;
    bounds := AppendWindows(bounds, prevStart, pageCount, size);
    StartsKept(before, bounds, pages, |pages|, prevStart);
    FullEnd(before, bounds, prevStart, pageCount, size, starts);
    hide Tiling;
    forall k | 0 <= k < |outline| ensures StartsShard(bounds, ClampPage(outline[k].page, pageCount)) {
      assert ClampPage(outline[k].page, pageCount) in pages;
    }
    var degenerate := Degenerate(bounds);
    if degenerate {
      r := FixedBounds(pageCount, size, 1);
      return;
    }
    r := Ok(bounds);
  }

  /** So far, where the next shard starts on a page of starts, or nothing has been cut yet. */
  ghost predicate FullBefore(bs: seq<ShardBound>, next: int, shardPages: int, starts: set<int>) {
    && Full(bs, next - 1, shardPages, starts) && (bs != [] ==> next in starts)
  }

  lemma FullNone(shardPages: int, starts: set<int>)
    ensures FullBefore([], 1, shardPages, starts)
  {
  }

  lemma FullMore(before: seq<ShardBound>, after: seq<ShardBound>, from: int, page: int, shardPages: int, starts: set<int>)
    requires FullBefore(before, from, shardPages, starts) && page in starts
    requires before <= after && Full(after[|before|..], page - 1, shardPages, {})
    ensures FullBefore(after, page, shardPages, starts)
  {
    forall i | 0 <= i < |after|
      ensures after[i].pageEnd - after[i].pageStart + 1 == shardPages || after[i].pageEnd == page - 1 || after[i].pageEnd + 1 in starts
    {
      if i < |before| {
        assert after[i] == before[i];
      } else {
        assert after[i] == after[|before|..][i - |before|];
      }
    }
  }

  lemma FullEnd(before: seq<ShardBound>, after: seq<ShardBound>, from: int, to: int, shardPages: int, starts: set<int>)
    requires FullBefore(before, from, shardPages, starts)
    requires before <= after && Full(after[|before|..], to, shardPages, {})
    ensures Full(after, to, shardPages, starts)
  {
    forall i | 0 <= i < |after|
      ensures after[i].pageEnd - after[i].pageStart + 1 == shardPages || after[i].pageEnd == to || after[i].pageEnd + 1 in starts
    {
      if i < |before| {
        assert after[i] == before[i];
      } else {
        assert after[i] == after[|before|..][i - |before|];
      }
    }
  }

  lemma StartsKept(before: seq<ShardBound>, after: seq<ShardBound>, pages: seq<int>, n: nat, prevStart: int)
    requires before <= after && |before| < |after| && after[|before|].pageStart == prevStart && n <= |pages|
    requires forall k :: 0 <= k < n ==> pages[k] == prevStart || StartsShard(before, pages[k])
    ensures forall k :: 0 <= k < n ==> StartsShard(after, pages[k])
  {
    forall k | 0 <= k < n ensures StartsShard(after, pages[k]) {
      if StartsShard(before, pages[k]) {
        var i :| 0 <= i < |before| && before[i].pageStart == pages[k];
        assert after[i].pageStart == pages[k];
      }
    }
  }

  method Degenerate(bounds: seq<ShardBound>) returns (d: bool)
    ensures d <==> bounds == [] || exists i :: 0 <= i < |bounds| && bounds[i].pageEnd < bounds[i].pageStart
  {
    d := |bounds| == 0;
    for i := 0 to |bounds|
      invariant d == (bounds == []) && forall k :: 0 <= k < i ==> bounds[k].pageEnd >= bounds[k].pageStart
    {
      if bounds[i].pageEnd < bounds[i].pageStart {
        return true;
      }
    }
  }

  /** The same steps for a document without pages. */
  method Pageless(outline: seq<Bookmark>, pages: seq<int>, pageCount: int, size: int) returns (r: Result<seq<ShardBound>, SplitError>)
    requires pageCount < 1 && size >= 1
    requires Ascending(pages) && forall p :: p in pages <==> exists k :: 0 <= k < |outline| && ClampPage(outline[k].page, pageCount) == p
    ensures r == if outline == [] then Err(BadPageCount(pageCount)) else Ok([ShardBound(0, pageCount, pageCount)])
  {
    var prevStart := 1;
    assert forall i :: 0 <= i < |pages| ==> pages[i] in pages;
    for i := 0 to |pages|
      invariant prevStart == if i == 0 then 1 else pageCount
    {
      assert pages[i] in pages;
      prevStart := pages[i];
    }
    if outline != [] {
      assert ClampPage(outline[0].page, pageCount) in pages;
    }
    assert pages != [] ==> pages[0] in pages;
    if prevStart <= pageCount {
      var fb := FixedBounds(pageCount - prevStart + 1, size, 0);
      NoOverlapTiles(fb.value, 1, size);
      assert fb.value[0] == ShardBound(0, 1, 1);
      r := Ok([ShardBound(0, fb.value[0].pageStart + prevStart - 1, fb.value[0].pageEnd + prevStart - 1)]);
    } else {
      r := FixedBounds(pageCount, size, 1);
    }
  }
}
