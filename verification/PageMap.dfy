/** Page numbers for rune ranges of the stitched markdown. */
module PageMap {
  import opened Text
  import opened Chunks
  import opened Sorting

  /** strings.Count(t, "\n") */
  function Newlines(t: string): (n: nat)
    ensures n <= |t|
  {
    if t == "" then 0 else Newlines(t[..|t| - 1]) + if t[|t| - 1] == '\n' then 1 else 0
  }

  lemma NewlinesStep(t: string, n: nat)
    requires n < |t|
    ensures Newlines(t[..n + 1]) == Newlines(t[..n]) + if t[n] == '\n' then 1 else 0
  {
    assert t[..n + 1][..n] == t[..n];
  }

  lemma {:induction false} NewlinesMonotone(t: string, a: nat, b: nat)
    requires a <= b <= |t|
    ensures Newlines(t[..a]) <= Newlines(t[..b])
    decreases b - a
  {
    if a == b {
    } else {
      NewlinesStep(t, a);
      NewlinesMonotone(t, a + 1, b);
    }
  }

  /** How many lines the page map must have: a newline ends a line, unless it is the final rune. */
  function LineCount(t: string): nat
    requires t != ""
  {
    1 + Newlines(t[..|t| - 1])
  }

  /** The line a rune is on: the number of newlines before it. Offsets past the end are on the last line. */
  function LineIndex(t: string, off: nat): (line: nat)
    requires t != ""
    ensures line < LineCount(t)
  {
    var n := if off < |t| then off else |t| - 1;
    NewlinesMonotone(t, n, |t| - 1);
    Newlines(t[..n])
  }

  /** The pages a rune range covers; an empty range counts as one rune. */
  function PagesOf(t: string, pages: seq<int>, start: int, end: int): Option<(int, int)> {
    if pages == [] || t == "" || |pages| != LineCount(t) || start < 0 then None
    else
      var last := if end <= start then start else end - 1;
      Some((pages[LineIndex(t, start)], pages[LineIndex(t, last)]))
  }

  // ---- the mapper -----------------------------------------------------------

  datatype PageMapper = PageMapper(pages: seq<int>, lineStarts: seq<int>)

  /** starts holds the offset at which each line begins, among the first n runes of t. */
  ghost predicate StartsUpTo(t: string, n: nat, starts: seq<int>) {
    && t != "" && n <= |t| && Ascending(starts) && starts != [] && starts[0] == 0
    && |starts| == 1 + Newlines(t[..if n < |t| then n else |t| - 1])
    && (forall i :: 0 < i < |starts| ==> 0 < starts[i] <= n && starts[i] < |t| && t[starts[i] - 1] == '\n'
                                          && Newlines(t[..starts[i]]) == i)
  }

  ghost predicate MapperFor(t: string, pages: seq<int>, m: PageMapper) {
    if pages == [] || t == "" || |pages| != LineCount(t) then m == PageMapper([], [])
    else m.pages == pages && StartsUpTo(t, |t|, m.lineStarts)
  }

  method NewPageMapper(t: string, pages: seq<int>) returns (m: PageMapper)
    ensures MapperFor(t, pages, m)
  {
    if |pages| == 0 || t == "" {
      return PageMapper([], []);
    }
    var starts := [0];
    for runePos := 0 to |t|
      invariant StartsUpTo(t, runePos, starts)
    {
      NewlinesStep(t, runePos);
      if t[runePos] == '\n' && runePos < |t| - 1 {
        starts := starts + [runePos + 1];
      }
    }
    if |starts| != |pages| {
      return PageMapper([], []);
    }
    return PageMapper(pages, starts);
  }

  /** lineForRune: the binary search finds the line that counting newlines gives. */
  method LineForRune(m: PageMapper, off: int, ghost t: string, ghost pages: seq<int>) returns (line: int)
    requires MapperFor(t, pages, m)
    ensures line == if off < 0 || m.pages == [] then -1 else LineIndex(t, off)
  {
    if off < 0 || |m.lineStarts| == 0 {
      return -1;
    }
    var idx := SearchInts(m.lineStarts, off + 1);
    line := idx - 1;
    SearchedLine(t, m.lineStarts, off, idx);
    if line < 0 || line >= |m.pages| {
      return -1;
    }
  }

  lemma SearchedLine(t: string, starts: seq<int>, off: nat, idx: nat)
    requires StartsUpTo(t, |t|, starts) && idx <= |starts|
    requires (forall k :: 0 <= k < idx ==> starts[k] < off + 1) && (forall k :: idx <= k < |starts| ==> starts[k] >= off + 1)
    ensures 1 <= idx && idx - 1 == LineIndex(t, off) && |starts| == LineCount(t)
  {
    hide Newlines;
    assert starts[0] == 0;
    var n := if off < |t| then off else |t| - 1;
    var line := idx - 1;
    assert Newlines(t[..starts[line]]) == line;
    NewlinesMonotone(t, starts[line], n);
    if idx < |starts| {
      assert Newlines(t[..starts[idx]]) == idx;
      NewlinesStep(t, starts[idx] - 1);
      NewlinesMonotone(t, n, starts[idx] - 1);
    } else {
      NewlinesMonotone(t, n, |t| - 1);
    }
  }

  method RangeFor(m: PageMapper, start: int, end: int, ghost t: string, ghost pages: seq<int>) returns (r: Option<(int, int)>)
    requires MapperFor(t, pages, m)
    ensures r == PagesOf(t, pages, start, end)
  {
    if |m.pages| == 0 {
      return None;
    }
    var e := if end <= start then start + 1 else end;
    var first := LineForRune(m, start, t, pages);
    var last := LineForRune(m, e - 1, t, pages);
    if first < 0 || last < 0 {
      return None;
    }
    r := Some((m.pages[first], m.pages[last]));
  }

  // ---- what the ranges mean -------------------------------------------------

  predicate Nondecreasing(pages: seq<int>) {
    forall i, j :: 0 <= i <= j < |pages| ==> pages[i] <= pages[j]
  }

  lemma LineIndexMonotone(t: string, a: nat, b: nat)
    requires t != "" && a <= b
    ensures LineIndex(t, a) <= LineIndex(t, b)
  {
    NewlinesMonotone(t, if a < |t| then a else |t| - 1, if b < |t| then b else |t| - 1);
  }

  /** The end a range is looked up with: an empty range counts as its first rune. */
  function LookedUpEnd(s: int, e: int): int {
    if e <= s then s + 1 else e
  }

  /** With nondecreasing pages a range never runs backwards, and a wider range covers a narrower one. */
  lemma RangesNest(t: string, pages: seq<int>, s: int, e: int, s': int, e': int)
    requires Nondecreasing(pages) && 0 <= s <= s' && LookedUpEnd(s', e') <= LookedUpEnd(s, e)
    ensures PagesOf(t, pages, s, e).Some? <==> PagesOf(t, pages, s', e').Some?
    ensures PagesOf(t, pages, s, e).Some? ==>
              var w, n := PagesOf(t, pages, s, e).value, PagesOf(t, pages, s', e').value;
              w.0 <= n.0 <= n.1 <= w.1
  {
    if PagesOf(t, pages, s, e).Some? {
      LineIndexMonotone(t, s, s');
      LineIndexMonotone(t, s', LookedUpEnd(s', e') - 1);
      LineIndexMonotone(t, LookedUpEnd(s', e') - 1, LookedUpEnd(s, e) - 1);
    }
  }

  /** The pages of a range are those of two runes inside it. */
  lemma PagesAttained(t: string, pages: seq<int>, s: int, e: int) returns (a: int, b: int)
    requires s < e && PagesOf(t, pages, s, e).Some?
    ensures 0 <= s <= a < e && s <= b < e && PagesOf(t, pages, s, e).value == (pages[LineIndex(t, a)], pages[LineIndex(t, b)])
  {
    a, b := s, e - 1;
  }

  /** Every rune of the range is on a page within the range's pages. */
  lemma PagesEnclose(t: string, pages: seq<int>, s: int, e: int, k: int)
    requires Nondecreasing(pages) && 0 <= s <= k < e && PagesOf(t, pages, s, e).Some?
    ensures var r := PagesOf(t, pages, s, e).value;
            r.0 <= pages[LineIndex(t, k)] <= r.1
  {
    LineIndexMonotone(t, s, k);
    LineIndexMonotone(t, k, e - 1);
  }
}
