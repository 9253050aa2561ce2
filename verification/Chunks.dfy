/** Chunks, split units, and the invariant that ties both to the source text. */
module Chunks {
  import opened Text

  datatype Option<+T> = None | Some(value: T)

  /** One piece of split text; start and end are rune offsets into the document. */
  datatype Chunk = Chunk(
    content: string,
    contextHeader: string,
    seqNo: nat,
    start: int,
    end: int,
    pages: Option<(int, int)>,
    synthetic: nat)

  /** The central promise: after its counted synthetic prefix, a chunk is a verbatim slice. */
  predicate Verbatim(src: string, c: Chunk) {
    && 0 <= c.start <= c.end <= |src|
    && c.synthetic <= |c.content|
    && c.content[c.synthetic..] == src[c.start..c.end]
  }

  predicate AllVerbatim(src: string, cs: seq<Chunk>) {
    forall i :: 0 <= i < |cs| ==> Verbatim(src, cs[i])
  }

  /** Rune k lies in the source range of some chunk. */
  predicate InSome(cs: seq<Chunk>, k: int) {
    exists i :: 0 <= i < |cs| && cs[i].start <= k < cs[i].end
  }

  /** Nothing is lost: every non-whitespace rune lies in the range of some chunk. */
  predicate Covers(src: string, cs: seq<Chunk>) {
    forall k :: 0 <= k < |src| && !IsSpace(src[k]) ==> InSome(cs, k)
  }

  predicate DenseSeq(cs: seq<Chunk>) {
    forall i :: 0 <= i < |cs| ==> cs[i].seqNo == i
  }

  lemma InSomeAppend(a: seq<Chunk>, b: seq<Chunk>, k: int)
    ensures InSome(a + b, k) <==> InSome(a, k) || InSome(b, k)
  {
    if InSome(a, k) {
      var i :| 0 <= i < |a| && a[i].start <= k < a[i].end;
      assert (a + b)[i] == a[i];
    }
    if InSome(b, k) {
      var i :| 0 <= i < |b| && b[i].start <= k < b[i].end;
      assert (a + b)[|a| + i] == b[i];
    }
  }

  /**
   * A piece of text with its position. A unit may be synthetic: a re-injected table header
   * has start == end because it exists at no position of the source.
   */
  datatype SplitUnit = SplitUnit(text: string, start: int, end: int) {
    predicate IsSynthetic() {
      start == end || end - start != |text|
    }
  }

  predicate IsSource(src: string, u: SplitUnit) {
    0 <= u.start < u.end <= |src| && u.text == src[u.start..u.end]
  }

  function UnitsText(us: seq<SplitUnit>): string {
    if us == [] then "" else us[0].text + UnitsText(us[1..])
  }

  /** us are contiguous, non-empty source units running from offset a to offset b. */
  predicate Tiles(src: string, us: seq<SplitUnit>, a: int, b: int) {
    if us == [] then a == b
    else us[0].start == a && IsSource(src, us[0]) && Tiles(src, us[1..], us[0].end, b)
  }

  lemma {:induction false} TilesText(src: string, us: seq<SplitUnit>, a: int, b: int)
    requires 0 <= a && b <= |src| && Tiles(src, us, a, b)
    ensures a <= b && UnitsText(us) == src[a..b]
    ensures us != [] ==> a < b
  {
    if us == [] {
    } else {
      TilesText(src, us[1..], us[0].end, b);
      assert src[a..b] == src[a..us[0].end] + src[us[0].end..b];
    }
  }

  lemma {:induction false} TilesAppend(src: string, us: seq<SplitUnit>, vs: seq<SplitUnit>, a: int, b: int, c: int)
    requires Tiles(src, us, a, b) && Tiles(src, vs, b, c)
    ensures Tiles(src, us + vs, a, c)
  {
    if us == [] {
      assert us + vs == vs;
    } else {
      assert (us + vs)[1..] == us[1..] + vs;
      TilesAppend(src, us[1..], vs, us[0].end, b, c);
    }
  }

  lemma TilesSnoc(src: string, us: seq<SplitUnit>, u: SplitUnit, a: int, b: int)
    requires Tiles(src, us, a, b) && IsSource(src, u) && u.start == b
    ensures Tiles(src, us + [u], a, u.end)
  {
    assert Tiles(src, [u][1..], u.end, u.end);
    TilesAppend(src, us, [u], a, b, u.end);
  }

  /** A tiling cut after its first k units is two tilings. */
  lemma {:induction false} TilesSplit(src: string, us: seq<SplitUnit>, a: int, b: int, k: nat)
    requires k <= |us| && Tiles(src, us, a, b)
    ensures exists m :: Tiles(src, us[..k], a, m) && Tiles(src, us[k..], m, b)
  {
    if k == 0 {
      assert us[..0] == [] && us[0..] == us;
      assert Tiles(src, us[..0], a, a);
    } else {
      TilesSplit(src, us[1..], us[0].end, b, k - 1);
      var m :| Tiles(src, us[1..][..k - 1], us[0].end, m) && Tiles(src, us[1..][k - 1..], m, b);
      assert us[..k][1..] == us[1..][..k - 1] && us[1..][k - 1..] == us[k..];
      assert Tiles(src, us[..k], a, m);
    }
  }

  /** The k-th unit of a tiling is a source unit that starts where its predecessors end. */
  lemma {:induction false} TilesAt(src: string, us: seq<SplitUnit>, a: int, b: int, k: nat)
    requires k < |us| && Tiles(src, us, a, b)
    ensures IsSource(src, us[k]) && a <= us[k].start && us[k].end <= b
    ensures Tiles(src, us[..k], a, us[k].start) && Tiles(src, us[k + 1..], us[k].end, b)
  {
    if k == 0 {
      assert us[..0] == [];
      TilesEnds(src, us[1..], us[0].end, b);
    } else {
      TilesAt(src, us[1..], us[0].end, b, k - 1);
      assert us[..k][1..] == us[1..][..k - 1] && us[1..][k..] == us[k + 1..];
    }
  }

  lemma {:induction false} TilesEnds(src: string, us: seq<SplitUnit>, a: int, b: int)
    requires Tiles(src, us, a, b)
    ensures a <= b && (us != [] ==> a < b <= |src| && us[|us| - 1].end == b)
  {
    if us == [] {
    } else {
      TilesEnds(src, us[1..], us[0].end, b);
      if us[1..] != [] {
        assert us[1..][|us| - 2] == us[|us| - 1];
      }
    }
  }

  lemma {:induction false} UnitsTextAppend(us: seq<SplitUnit>, vs: seq<SplitUnit>)
    ensures UnitsText(us + vs) == UnitsText(us) + UnitsText(vs)
  {
    if us == [] {
      assert us + vs == vs;
    } else {
      assert (us + vs)[1..] == us[1..] + vs;
      UnitsTextAppend(us[1..], vs);
    }
  }
}
