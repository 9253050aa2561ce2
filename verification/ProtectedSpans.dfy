/** Regions that must never be split: overlap resolution and byte-to-rune conversion. */
module ProtectedSpans {
  import opened Text
  import opened Lexicons

  /** The sort order: earlier start first, then the longer span. */
  predicate Before(a: Span, b: Span) {
    a.start < b.start || (a.start == b.start && a.end - a.start >= b.end - b.start)
  }

  predicate Sorted(s: seq<Span>) {
    forall i, j :: 0 <= i < j < |s| ==> Before(s[i], s[j])
  }

  /** Non-empty spans, each ending before the next begins. */
  predicate Disjoint(s: seq<Span>) {
    && (forall i :: 0 <= i < |s| ==> s[i].start < s[i].end)
    && (forall i, j :: 0 <= i < j < |s| ==> s[i].end <= s[j].start)
  }

  /** A span of s starts at or before m and reaches past m's start. */
  predicate Claimed(s: seq<Span>, m: Span) {
    exists i :: 0 <= i < |s| && s[i].start <= m.start < s[i].end
  }

  /** The strict comparison that lets the sort's inner loop keep swapping. */
  predicate Precedes(a: Span, b: Span) {
    a.start < b.start || (a.start == b.start && a.end - a.start > b.end - b.start)
  }

  function Swapped(s: seq<Span>, j: nat): (t: seq<Span>)
    requires 0 < j < |s|
    ensures |t| == |s|
  {
    s[j - 1 := s[j]][j := s[j - 1]]
  }

  lemma SwapKeepsContents(s: seq<Span>, j: nat)
    requires 0 < j < |s|
    ensures multiset(Swapped(s, j)) == multiset(s)
  {
    assert s == s[..j - 1] + [s[j - 1], s[j]] + s[j + 1..];
    assert Swapped(s, j) == s[..j - 1] + [s[j], s[j - 1]] + s[j + 1..];
  }

  /** The first i + 1 spans are in order, except that position j may precede its predecessors. */
  predicate SortedBut(s: seq<Span>, i: int, j: int) {
    forall p, q :: 0 <= p < q <= i && q != j && q < |s| ==> Before(s[p], s[q])
  }

  lemma SwapSorts(s: seq<Span>, i: nat, j: nat)
    requires 0 < j <= i < |s| && SortedBut(s, i, j) && Precedes(s[j], s[j - 1])
    ensures SortedBut(Swapped(s, j), i, j - 1)
  {
    var t := Swapped(s, j);
    forall p, q | 0 <= p < q <= i && q != j - 1 ensures Before(t[p], t[q]) {
      if q == j {
        if p < j - 1 { assert Before(s[p], s[j - 1]); }
      } else if p == j - 1 {
        assert Before(s[j], s[q]);
      } else if p == j {
        assert Before(s[j - 1], s[q]);
      } else {
        assert Before(s[p], s[q]);
      }
    }
  }

  /** The insertion sort of the match list. */
  method InsertionSort(input: seq<Span>) returns (all: seq<Span>)
    ensures Sorted(all) && multiset(all) == multiset(input)
  {
    all := input;
    var i := 1;
    while i < |all|
      invariant 1 <= i && |all| == |input| && SortedBut(all, i - 1, i)
      invariant multiset(all) == multiset(input)
    {
      var j := i;
      while j > 0 && Precedes(all[j], all[j - 1])
        invariant 0 <= j <= i < |all| == |input|
        invariant SortedBut(all, i, j)
        invariant multiset(all) == multiset(input)
      {
        SwapKeepsContents(all, j);
        SwapSorts(all, i, j);
        all := Swapped(all, j);
        j := j - 1;
      }
      InsertionDone(all, i, j);
      i := i + 1;
    }
  }

  lemma InsertionDone(s: seq<Span>, i: nat, j: nat)
    requires j <= i < |s| && SortedBut(s, i, j) && (j == 0 || !Precedes(s[j], s[j - 1]))
    ensures SortedBut(s, i, i + 1)
  {
    forall p | 0 <= p < j ensures Before(s[p], s[j]) {
      assert p < j - 1 ==> Before(s[p], s[j - 1]);
    }
  }

  lemma SameContents(a: seq<Span>, b: seq<Span>)
    requires multiset(a) == multiset(b)
    ensures forall s :: s in a <==> s in b
  {
    forall s ensures s in a <==> s in b {
      assert s in a <==> s in multiset(a);
      assert s in b <==> s in multiset(b);
    }
  }

  /** The longest-match rule: no span of all beats a span of kept at a shared start. */
  predicate LongestAtStart(all: seq<Span>, kept: seq<Span>) {
    forall m, s :: m in all && s in kept && m.start == s.start ==> m.end <= s.end
  }

  predicate AllClaimed(all: seq<Span>, kept: seq<Span>) {
    forall m {:trigger Claimed(kept, m)} :: m in all && m.start < m.end ==> Claimed(kept, m)
  }

  /** What the greedy scan keeps of the matches seen so far. */
  ghost predicate Kept(all: seq<Span>, kept: seq<Span>) {
    && Disjoint(kept) && (forall s :: s in kept ==> s in all)
    && LongestAtStart(all, kept) && AllClaimed(all, kept)
  }

  /** The greedy scan over the sorted matches. */
  method Greedy(all: seq<Span>) returns (result: seq<Span>)
    requires Sorted(all) && forall s :: s in all ==> 0 <= s.start < s.end
    ensures Kept(all, result)
  {
    result := [];
    var lastEnd := 0;
    for i := 0 to |all|
      invariant Kept(all[..i], result) && lastEnd == (if result == [] then 0 else result[|result| - 1].end)
    {
      var m := all[i];
      assert m in all;
      assert all[..i + 1] == all[..i] + [m];
      if m.start >= lastEnd {
        KeepNext(all[..i], result, m);
        result := result + [m];
        lastEnd := m.end;
      } else {
        forall s | s in all[..i] ensures Before(s, m) {
          var k :| 0 <= k < i && all[k] == s;
        }
        SkipNext(all[..i], m, result);
      }
    }
    assert all[..|all|] == all;
  }

  lemma ClaimedMore(kept: seq<Span>, m: Span, k: Span)
    requires Claimed(kept, k)
    ensures Claimed(kept + [m], k)
  {
    var w :| 0 <= w < |kept| && kept[w].start <= k.start < kept[w].end;
    assert (kept + [m])[w] == kept[w];
  }

  lemma DisjointNext(kept: seq<Span>, m: Span)
    requires Disjoint(kept) && m.start < m.end && (kept == [] || m.start >= kept[|kept| - 1].end)
    ensures Disjoint(kept + [m])
    ensures forall s :: s in kept ==> s.start < s.end <= m.start
  {
    forall i | 0 <= i < |kept| ensures kept[i].end <= m.start {
      if i < |kept| - 1 { assert kept[i].end <= kept[|kept| - 1].start; }
    }
  }

  /** A span past the last kept end has a start that no earlier match shares. */
  lemma KeepNext(all: seq<Span>, kept: seq<Span>, m: Span)
    requires Kept(all, kept) && m.start < m.end && (kept == [] || m.start >= kept[|kept| - 1].end)
    ensures Kept(all + [m], kept + [m])
  {
    DisjointNext(kept, m);
    NewStart(all, kept, m);
    forall k | k in all + [m] && k.start < k.end ensures Claimed(kept + [m], k) {
      if k in all {
        ClaimedMore(kept, m, k);
      } else {
        assert (kept + [m])[|kept|] == m;
      }
    }
  }

  lemma NewStart(all: seq<Span>, kept: seq<Span>, m: Span)
    requires LongestAtStart(all, kept) && AllClaimed(all, kept) && m.start < m.end
    requires forall s :: s in kept ==> s.start < s.end <= m.start
    ensures LongestAtStart(all + [m], kept + [m])
  {
    forall k | k in all && k.start < k.end ensures k.start < m.start {
      assert Claimed(kept, k);
      var w :| 0 <= w < |kept| && kept[w].start <= k.start < kept[w].end;
      assert kept[w] in kept;
    }
  }

  /** A match that starts inside the last kept span adds nothing: it is claimed and no longer. */
  lemma SkipNext(all: seq<Span>, m: Span, kept: seq<Span>)
    requires Kept(all, kept) && forall s :: s in all ==> Before(s, m)
    requires kept != [] && m.start < kept[|kept| - 1].end
    ensures Kept(all + [m], kept)
  {
    var last := kept[|kept| - 1];
    assert last in kept;
    assert Claimed(kept, m);
    forall s | s in kept && s.start == m.start ensures m.end <= s.end {
      assert s in all && Before(s, m);
    }
  }

  /** Drops the empty matches. */
  method NonEmpty(found: seq<Span>) returns (all: seq<Span>)
    ensures forall s :: s in all <==> s in found && s.start < s.end
  {
    all := [];
    for i := 0 to |found|
      invariant forall s :: s in all <==> s in found[..i] && s.start < s.end
    {
      assert found[..i + 1] == found[..i] + [found[i]];
      if found[i].end > found[i].start {
        all := all + [found[i]];
      }
    }
    assert found[..|found|] == found;
  }

  /**
   * Overlap resolution leaves no choice: the matches alone determine what is kept.
   */
  lemma {:induction false} KeptUnique(all: seq<Span>, a: seq<Span>, b: seq<Span>)
    requires Kept(all, a) && Kept(all, b)
    ensures a == b
  {
    KeptPrefix(all, a, b, |a|);
    KeptPrefix(all, b, a, |b|);
  }

  lemma {:induction false} KeptPrefix(all: seq<Span>, a: seq<Span>, b: seq<Span>, n: nat)
    requires Kept(all, a) && Kept(all, b) && n <= |a|
    ensures n <= |b| && forall w :: 0 <= w < n ==> a[w] == b[w]
  {
    hide Kept;
    if n == 0 {
    } else {
      KeptPrefix(all, a, b, n - 1);
      KeptStart(all, a, b, n - 1);
      KeptStart(all, b, a, n - 1);
      KeptAt(all, a, b, n - 1);
    }
  }

  /** With equal prefixes, b has an i-th span and it starts no later than a's. */
  lemma KeptStart(all: seq<Span>, a: seq<Span>, b: seq<Span>, i: nat)
    requires Kept(all, a) && Kept(all, b) && i < |a| && i <= |b|
    requires forall w :: 0 <= w < i ==> a[w] == b[w]
    ensures i < |b| && b[i].start <= a[i].start
  {
    assert a[i] in a;
    assert Claimed(b, a[i]);
    var w :| 0 <= w < |b| && b[w].start <= a[i].start < b[w].end;
  }

  /** Kept spans that start together are one span. */
  lemma KeptAt(all: seq<Span>, a: seq<Span>, b: seq<Span>, i: nat)
    requires Kept(all, a) && Kept(all, b) && i < |a| && i < |b| && a[i].start == b[i].start
    ensures a[i] == b[i]
  {
    assert a[i] in a && b[i] in b;
  }

  predicate OnRunes(text: string, s: Span) {
    OnBoundary(text, s.start) && OnBoundary(text, s.end)
  }

  predicate AllOnRunes(text: string, spans: seq<Span>) {
    forall i :: 0 <= i < |spans| ==> OnRunes(text, spans[i])
  }

  /** Sorting and dropping empty matches does not change what is kept. */
  lemma KeptOfAll(found: seq<Span>, all: seq<Span>, kept: seq<Span>)
    requires Kept(all, kept) && forall s :: s in all <==> s in found && s.start < s.end
    ensures Kept(found, kept)
  {
    assert forall s :: s in kept ==> s in found;
    forall m | m in found && m.start < m.end ensures Claimed(kept, m) {
      assert m in all;
    }
    forall m, s | m in found && s in kept && m.start == s.start ensures m.end <= s.end {
      assert s in all;
      if m.start < m.end { assert m in all; }
    }
  }

  /** The protected regions of a text, as byte spans. */
  ghost function Protected(lex: Lexicon, text: string): seq<Span> {
    if exists r :: Kept(lex.matches(text), r) then
      var r :| Kept(lex.matches(text), r); r
    else []
  }

  /**
   * protectedSpans: what survives is sorted and disjoint, is the longest match at its start,
   * and every other match starts inside a survivor.
   */
  method Resolve(lex: Lexicon, text: string) returns (result: seq<Span>)
    requires lex.Valid()
    ensures Kept(lex.matches(text), result) && result == Protected(lex, text)
    ensures AllOnRunes(text, result)
  {
    var nonEmpty := NonEmpty(lex.matches(text));
    var all := InsertionSort(nonEmpty);
    SameContents(all, nonEmpty);
    forall s | s in all ensures 0 <= s.start < s.end {
      assert s in lex.matches(text) && OnBoundary(text, s.start);
    }
    result := Greedy(all);
    KeptOfAll(lex.matches(text), all, result);
    forall i | 0 <= i < |result| ensures OnRunes(text, result[i]) {
      assert result[i] in result;
    }
    KeptUnique(lex.matches(text), result, Protected(lex, text));
  }

  /** The rune span a byte span denotes. */
  function RuneSpan(text: string, s: Span): Span
    requires OnRunes(text, s)
  {
    Span(RuneAt(text, s.start), RuneAt(text, s.end))
  }

  function RuneSpans(text: string, spans: seq<Span>): (r: seq<Span>)
    requires AllOnRunes(text, spans)
    ensures |r| == |spans| && forall i :: 0 <= i < |r| ==> r[i] == RuneSpan(text, spans[i])
  {
    seq(|spans|, i requires 0 <= i < |spans| => RuneSpan(text, spans[i]))
  }

  lemma RuneSpansDisjoint(text: string, spans: seq<Span>)
    requires AllOnRunes(text, spans) && Disjoint(spans)
    ensures Disjoint(RuneSpans(text, spans))
  {
    var out := RuneSpans(text, spans);
    forall i | 0 <= i < |out| ensures out[i].start < out[i].end {
      RuneAtOrder(text, spans[i].start, spans[i].end);
    }
    forall i, j | 0 <= i < j < |out| ensures out[i].end <= out[j].start {
      RuneAtOrder(text, spans[i].end, spans[j].start);
    }
  }

  lemma ProtectedOnRunes(lex: Lexicon, text: string)
    requires lex.Valid()
    ensures AllOnRunes(text, Protected(lex, text))
  {
    var r := Protected(lex, text);
    forall i | 0 <= i < |r| ensures OnRunes(text, r[i]) {
      assert r[i] in r;
      assert r[i] in lex.matches(text);
    }
  }

  /** The protected regions of a text, as rune spans. */
  ghost function ProtectedRunes(lex: Lexicon, text: string): seq<Span>
    requires lex.Valid()
  {
    ProtectedOnRunes(lex, text);
    RuneSpans(text, Protected(lex, text))
  }

  /** Advances over runes until the byte position reaches a rune boundary b. */
  method Advance(text: string, runeIdx: nat, byteIdx: nat, b: int) returns (runeIdx': nat, byteIdx': nat)
    requires runeIdx <= |text| && byteIdx == ByteAt(text, runeIdx) <= b && OnBoundary(text, b)
    ensures byteIdx' == b && runeIdx' == RuneAt(text, b)
  {
    runeIdx', byteIdx' := runeIdx, byteIdx;
    RuneAtOrder(text, byteIdx, b);
    RuneAtUnique(text, byteIdx);
    while byteIdx' < b && runeIdx' < |text|
      invariant runeIdx' <= RuneAt(text, b) && byteIdx' == ByteAt(text, runeIdx')
    {
      ByteAtStep(text, runeIdx');
      byteIdx' := byteIdx' + Width(text[runeIdx']);
      runeIdx' := runeIdx' + 1;
    }
    if runeIdx' < RuneAt(text, b) {
      ByteAtMonotone(text, runeIdx', RuneAt(text, b));
    }
    RuneAtUnique(text, b);
  }

  /** One forward pass turns byte spans into exactly the rune spans they denote. */
  method ToRunes(text: string, byteSpans: seq<Span>) returns (out: seq<Span>)
    requires Disjoint(byteSpans) && AllOnRunes(text, byteSpans)
    ensures out == RuneSpans(text, byteSpans) && Disjoint(out)
  {
    out := [];
    var runeIdx: nat, byteIdx: nat := 0, 0;
    assert text[..0] == "";
    for i := 0 to |byteSpans|
      invariant |out| == i && runeIdx <= |text| && byteIdx == ByteAt(text, runeIdx)
      invariant byteIdx == (if i == 0 then 0 else byteSpans[i - 1].end)
      invariant forall k :: 0 <= k < i ==> out[k] == RuneSpan(text, byteSpans[k])
    {
      assert OnRunes(text, byteSpans[i]);
      runeIdx, byteIdx := Advance(text, runeIdx, byteIdx, byteSpans[i].start);
      var startRune := runeIdx;
      runeIdx, byteIdx := Advance(text, runeIdx, byteIdx, byteSpans[i].end);
      out := out + [Span(startRune, runeIdx)];
    }
    assert out == RuneSpans(text, byteSpans);
    RuneSpansDisjoint(text, byteSpans);
  }

  /** insideSpan: an offset strictly inside some span. */
  predicate Inside(spans: seq<Span>, off: int) {
    exists i :: 0 <= i < |spans| && spans[i].start < off < spans[i].end
  }
}
