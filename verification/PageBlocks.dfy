/**
 * The page map as a row of blocks, one for each shard: a shard's pages are spread proportionally
 * over its lines. When they never decrease, also where blank lines at both ends have been cut off.
 */
module PageBlocks {
  import opened Numbers
  import opened PageMap

  // ---- the pages of one shard -----------------------------------------------

  /** Division as the machine does it: toward zero. */
  function Quotient(a: int, b: int): int
    requires b > 0
  {
    if a >= 0 then a / b else -((-a) / b)
  }

  function Span(range: (int, int)): int { range.1 - range.0 + 1 }

  /** The page of line l of n. */
  function PageAt(range: (int, int), n: nat, l: int): int
    requires n > 0
  {
    range.0 + Quotient(l * Span(range), n)
  }

  /** The pages of a shard's n lines. */
  function ShardPages(range: (int, int), n: nat): (pages: seq<int>)
    ensures |pages| == n
  {
    seq(n, l requires 0 <= l < n => PageAt(range, n, l))
  }

  lemma Times(a: int, b: int, c: int)
    requires a <= b && c >= 0
    ensures a * c <= b * c
  {
  }

  lemma QuotientBelow(a: int, s: int, n: int)
    requires 0 <= a < s * n && n > 0
    ensures 0 <= a / n < s
  {
    if a / n >= s {
      Times(s, a / n, n);
      assert false;
    }
  }

  lemma DivisionMonotone(a: int, b: int, n: int)
    requires a <= b && n > 0
    ensures a / n <= b / n
  {
    if a / n > b / n {
      Times(b / n + 1, a / n, n);
      assert false;
    }
  }

  lemma QuotientMonotone(a: int, b: int, n: int)
    requires a <= b && n > 0
    ensures Quotient(a, n) <= Quotient(b, n)
  {
    if a >= 0 {
      DivisionMonotone(a, b, n);
    } else if b < 0 {
      DivisionMonotone(-b, -a, n);
    } else {
      DivisionMonotone(0, -a, n);
      DivisionMonotone(0, b, n);
    }
  }

  /** Pages go up over a range that runs forwards, and down over one that runs backwards. */
  lemma PagesMonotone(range: (int, int), n: nat, l: int, m: int)
    requires n > 0 && l <= m
    ensures Span(range) >= 0 ==> PageAt(range, n, l) <= PageAt(range, n, m)
    ensures Span(range) <= 0 ==> PageAt(range, n, m) <= PageAt(range, n, l)
  {
    if Span(range) >= 0 {
      Times(l, m, Span(range));
      QuotientMonotone(l * Span(range), m * Span(range), n);
    }
    if Span(range) <= 0 {
      Times(l, m, -Span(range));
      QuotientMonotone(m * Span(range), l * Span(range), n);
    }
  }

  lemma PageInRange(range: (int, int), n: nat, l: int)
    requires Span(range) >= -1 && 0 <= l < n
    ensures range.0 <= PageAt(range, n, l) <= Max(range.0, range.1)
    ensures Span(range) <= 0 ==> PageAt(range, n, l) == range.0
  {
    if Span(range) >= 1 {
      Times(l + 1, n, Span(range));
      Times(0, l, Span(range));
      assert (l + 1) * Span(range) == l * Span(range) + Span(range);
      QuotientBelow(l * Span(range), Span(range), n);
    } else if Span(range) == -1 {
      assert l * Span(range) == -l;
      QuotientBelow(l, 1, n);
    } else {
      assert l * Span(range) == 0;
    }
  }

  /** A range of at least minus one page never takes a line backwards, nor past its end. */
  lemma ShardPagesInRange(range: (int, int), n: nat)
    requires Span(range) >= -1
    ensures Nondecreasing(ShardPages(range, n))
    ensures forall l :: 0 <= l < n ==> range.0 <= ShardPages(range, n)[l] <= Max(range.0, range.1)
  {
    hide PageAt;
    forall l, m | 0 <= l <= m < n
      ensures range.0 <= PageAt(range, n, l) <= PageAt(range, n, m) <= Max(range.0, range.1)
    {
      PageInRange(range, n, l);
      PageInRange(range, n, m);
      PagesMonotone(range, n, l, m);
    }
  }

  /** A range that runs backwards by more than that takes the second of two lines back. */
  lemma ShardPagesBack(range: (int, int))
    requires Span(range) <= -2
    ensures !Nondecreasing(ShardPages(range, 2))
  {
    var pages := ShardPages(range, 2);
    DivisionMonotone(2, -Span(range), 2);
    assert pages[0] > pages[1];
  }

  // ---- pages in a row -------------------------------------------------------

  predicate AllBelow(pages: seq<int>, x: int) {
    forall k :: 0 <= k < |pages| ==> pages[k] <= x
  }

  lemma BelowAppend(a: seq<int>, b: seq<int>, x: int)
    ensures AllBelow(a + b, x) <==> AllBelow(a, x) && AllBelow(b, x)
  {
    forall k | 0 <= k < |b| ensures (a + b)[|a| + k] == b[k] {
    }
    assert forall k :: 0 <= k < |a| ==> (a + b)[k] == a[k];
  }

  lemma OrderedAppend(a: seq<int>, b: seq<int>)
    ensures Nondecreasing(a + b) <==> Nondecreasing(a) && Nondecreasing(b) && (b == [] || AllBelow(a, b[0]))
  {
    var all := a + b;
    assert forall k :: 0 <= k < |a| ==> all[k] == a[k];
    assert forall k :: 0 <= k < |b| ==> all[|a| + k] == b[k];
    if Nondecreasing(all) {
      forall i, j | 0 <= i <= j < |b| ensures b[i] <= b[j] {
        assert all[|a| + i] <= all[|a| + j];
      }
      assert b != [] ==> all[|a|] == b[0];
    }
    if Nondecreasing(a) && Nondecreasing(b) && (b == [] || AllBelow(a, b[0])) {
      forall i, j | 0 <= i <= j < |all| ensures all[i] <= all[j] {
        if i < |a| <= j {
          assert a[i] <= b[0] <= b[j - |a|];
        } else if i >= |a| {
          assert b[i - |a|] <= b[j - |a|];
        }
      }
    }
  }

  // ---- blocks ---------------------------------------------------------------

  /** A shard's page range and the number of its lines. */
  datatype Block = Block(range: (int, int), n: nat)

  /** The pages of all blocks. */
  function Laid(bs: seq<Block>): seq<int> {
    if bs == [] then [] else Laid(bs[..|bs| - 1]) + ShardPages(bs[|bs| - 1].range, bs[|bs| - 1].n)
  }

  /** The entries from lo up to hi. */
  function Clip(pages: seq<int>, lo: nat, hi: nat): seq<int>
    requires lo <= hi
  {
    pages[Min(lo, |pages|)..Min(hi, |pages|)]
  }

  /** Where an offset into all lines falls in a block of n lines that starts at line a. */
  function Within(n: nat, a: nat, x: nat): (l: nat)
    ensures l <= n
  {
    Min(Max(x - a, 0), n)
  }

  /** The first line of block i that is left when the lines from lo up to hi are. */
  function First(bs: seq<Block>, i: nat, lo: nat): nat
    requires i < |bs|
  {
    Within(bs[i].n, |Laid(bs[..i])|, lo)
  }

  /** The end of the lines of block i that are left. */
  function End(bs: seq<Block>, i: nat, hi: nat): nat
    requires i < |bs|
  {
    Within(bs[i].n, |Laid(bs[..i])|, hi)
  }

  predicate Shows(bs: seq<Block>, i: nat, lo: nat, hi: nat)
    requires i < |bs|
  {
    First(bs, i, lo) < End(bs, i, hi)
  }

  function FirstPage(bs: seq<Block>, i: nat, lo: nat, hi: nat): int
    requires i < |bs| && Shows(bs, i, lo, hi)
  {
    PageAt(bs[i].range, bs[i].n, First(bs, i, lo))
  }

  function LastPage(bs: seq<Block>, i: nat, lo: nat, hi: nat): int
    requires i < |bs| && Shows(bs, i, lo, hi)
  {
    PageAt(bs[i].range, bs[i].n, End(bs, i, hi) - 1)
  }

  predicate PartEndsBy(bs: seq<Block>, i: nat, lo: nat, hi: nat, x: int)
    requires i < |bs|
  {
    Shows(bs, i, lo, hi) ==> LastPage(bs, i, lo, hi) <= x
  }

  /** What is left of the blocks before the k-th ends by page x. */
  predicate EndsBy(bs: seq<Block>, k: nat, lo: nat, hi: nat, x: int)
    requires k <= |bs|
  {
    forall i :: 0 <= i < k ==> PartEndsBy(bs, i, lo, hi, x)
  }

  /** What is left of block k does not run backwards and starts no earlier than any block before it ends. */
  predicate Follows(bs: seq<Block>, k: nat, lo: nat, hi: nat)
    requires k < |bs|
  {
    Shows(bs, k, lo, hi) ==>
      FirstPage(bs, k, lo, hi) <= LastPage(bs, k, lo, hi) && EndsBy(bs, k, lo, hi, FirstPage(bs, k, lo, hi))
  }

  predicate InOrder(bs: seq<Block>, lo: nat, hi: nat) {
    forall k :: 0 <= k < |bs| ==> Follows(bs, k, lo, hi)
  }

  lemma ClipAppend(a: seq<int>, b: seq<int>, lo: nat, hi: nat)
    requires lo <= hi
    ensures Clip(a + b, lo, hi) == Clip(a, lo, hi) + b[Within(|b|, |a|, lo)..Within(|b|, |a|, hi)]
  {
  }

  /** A part of a shard's pages is ordered exactly when its first page is not after its last. */
  lemma PartOrdered(range: (int, int), n: nat, x: nat, y: nat, v: int)
    requires x < y <= n
    ensures var part := ShardPages(range, n)[x..y];
            && part[0] == PageAt(range, n, x)
            && (Nondecreasing(part) <==> PageAt(range, n, x) <= PageAt(range, n, y - 1))
            && (Nondecreasing(part) ==> (AllBelow(part, v) <==> PageAt(range, n, y - 1) <= v))
  {
    hide PageAt;
    var part := ShardPages(range, n)[x..y];
    assert part[0] == PageAt(range, n, x) && part[y - x - 1] == PageAt(range, n, y - 1);
    if PageAt(range, n, x) <= PageAt(range, n, y - 1) {
      forall i, j | 0 <= i <= j < |part| ensures part[i] <= part[j] {
        PagesMonotone(range, n, x, x + i);
        PagesMonotone(range, n, x + i, x + j);
        PagesMonotone(range, n, x + j, y - 1);
      }
    }
  }

  /** What is said of a block does not depend on later ones. */
  lemma SameFront(bs: seq<Block>, k: nat, lo: nat, hi: nat)
    requires k < |bs| - 1
    ensures var front := bs[..|bs| - 1];
            && (Shows(front, k, lo, hi) <==> Shows(bs, k, lo, hi))
            && (Shows(bs, k, lo, hi) ==>
                  FirstPage(front, k, lo, hi) == FirstPage(bs, k, lo, hi) && LastPage(front, k, lo, hi) == LastPage(bs, k, lo, hi))
  {
    hide PageAt;
    assert bs[..|bs| - 1][..k] == bs[..k];
  }

  lemma FrontEnds(bs: seq<Block>, k: nat, lo: nat, hi: nat, x: int)
    requires k < |bs|
    ensures EndsBy(bs[..|bs| - 1], k, lo, hi, x) <==> EndsBy(bs, k, lo, hi, x)
  {
    hide First, End, PageAt;
    var front := bs[..|bs| - 1];
    forall i | 0 <= i < k ensures PartEndsBy(front, i, lo, hi, x) <==> PartEndsBy(bs, i, lo, hi, x) {
      SameFront(bs, i, lo, hi);
    }
    assert forall i :: 0 <= i < k ==> (PartEndsBy(front, i, lo, hi, x) <==> PartEndsBy(bs, i, lo, hi, x));
    hide PartEndsBy;
  }

  lemma FrontOrder(bs: seq<Block>, lo: nat, hi: nat)
    requires bs != []
    ensures InOrder(bs, lo, hi) <==> InOrder(bs[..|bs| - 1], lo, hi) && Follows(bs, |bs| - 1, lo, hi)
  {
    hide First, End, PageAt, EndsBy;
    var front := bs[..|bs| - 1];
    forall k | 0 <= k < |front| ensures Follows(front, k, lo, hi) <==> Follows(bs, k, lo, hi) {
      SameFront(bs, k, lo, hi);
      if Shows(bs, k, lo, hi) {
        FrontEnds(bs, k, lo, hi, FirstPage(bs, k, lo, hi));
      }
    }
    hide Follows;
  }

  /** The last block's part of what is left. */
  lemma LastPart(bs: seq<Block>, lo: nat, hi: nat) returns (part: seq<int>)
    requires bs != [] && lo <= hi
    ensures Clip(Laid(bs), lo, hi) == Clip(Laid(bs[..|bs| - 1]), lo, hi) + part
    ensures var k := |bs| - 1;
            && (part == [] <==> !Shows(bs, k, lo, hi))
            && (Shows(bs, k, lo, hi) ==>
                  && part[0] == FirstPage(bs, k, lo, hi)
                  && (Nondecreasing(part) <==> FirstPage(bs, k, lo, hi) <= LastPage(bs, k, lo, hi))
                  && (Nondecreasing(part) ==> forall v :: AllBelow(part, v) <==> LastPage(bs, k, lo, hi) <= v))
  {
    hide PageAt, AllBelow, Nondecreasing, Clip;
    var k := |bs| - 1;
    var b := bs[k];
    ClipAppend(Laid(bs[..k]), ShardPages(b.range, b.n), lo, hi);
    part := ShardPages(b.range, b.n)[First(bs, k, lo)..End(bs, k, hi)];
    if Shows(bs, k, lo, hi) {
      forall v {
        PartOrdered(b.range, b.n, First(bs, k, lo), End(bs, k, hi), v);
      }
      PartOrdered(b.range, b.n, First(bs, k, lo), End(bs, k, hi), 0);
    }
  }

  /** Pages in order are all at most x exactly when what is left of every block ends by x. */
  lemma {:induction false} BelowExactly(bs: seq<Block>, lo: nat, hi: nat, x: int)
    requires lo <= hi && Nondecreasing(Clip(Laid(bs), lo, hi))
    ensures AllBelow(Clip(Laid(bs), lo, hi), x) <==> EndsBy(bs, |bs|, lo, hi, x)
    decreases |bs|
  {
    hide Laid, Clip, Nondecreasing, AllBelow, Shows, FirstPage, LastPage, EndsBy;
    if bs == [] {
      NothingLaid(lo, hi, x);
    } else {
      var part := LastPart(bs, lo, hi);
      var front := bs[..|bs| - 1];
      OrderedAppend(Clip(Laid(front), lo, hi), part);
      BelowAppend(Clip(Laid(front), lo, hi), part, x);
      BelowExactly(front, lo, hi, x);
      FrontEnds(bs, |front|, lo, hi, x);
      EndsMore(bs, |front|, lo, hi, x);
      NothingBelow(x);
    }
  }

  lemma NothingBelow(x: int)
    ensures AllBelow([], x) && Nondecreasing([])
  {
  }

  lemma NothingLaid(lo: nat, hi: nat, x: int)
    requires lo <= hi
    ensures Clip(Laid([]), lo, hi) == [] && AllBelow([], x) && EndsBy([], 0, lo, hi, x) && InOrder([], lo, hi)
  {
  }

  lemma EndsMore(bs: seq<Block>, k: nat, lo: nat, hi: nat, x: int)
    requires k < |bs|
    ensures EndsBy(bs, k + 1, lo, hi, x) <==> EndsBy(bs, k, lo, hi, x) && PartEndsBy(bs, k, lo, hi, x)
  {
    hide PartEndsBy;
  }

  /** The pages that are left never decrease exactly when what is left of the blocks is in order, whatever their ranges. */
  lemma {:induction false} ClippedExactly(bs: seq<Block>, lo: nat, hi: nat)
    requires lo <= hi
    ensures Nondecreasing(Clip(Laid(bs), lo, hi)) <==> InOrder(bs, lo, hi)
    decreases |bs|
  {
    hide Laid, Clip, Nondecreasing, AllBelow, Shows, FirstPage, LastPage, EndsBy, InOrder;
    if bs == [] {
      NothingLaid(lo, hi, 0);
      NothingBelow(0);
    } else {
      var part := LastPart(bs, lo, hi);
      var front := bs[..|bs| - 1];
      ClippedExactly(front, lo, hi);
      FrontOrder(bs, lo, hi);
      OrderedAppend(Clip(Laid(front), lo, hi), part);
      NothingBelow(0);
      if InOrder(front, lo, hi) && part != [] {
        BelowExactly(front, lo, hi, part[0]);
        FrontEnds(bs, |front|, lo, hi, part[0]);
      }
    }
  }
}
