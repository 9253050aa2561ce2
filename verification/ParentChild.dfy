/** The two-level split: large parents, and small children mapped back into the document. */
module ParentChild {
  import opened Text
  import opened Chunks
  import opened Lexicons
  import opened Configs
  import opened Lines
  import opened PageMap
  import opened HeadingTier
  import opened Strategy

  datatype ChildChunk = ChildChunk(chunk: Chunk, parentIndex: int, parentHash: string)

  datatype ParentChildResult = ParentChildResult(parents: seq<Chunk>, children: seq<ChildChunk>)

  // ---- remapChild -----------------------------------------------------------

  function Clamp(x: int, lo: int, hi: int): int {
    var y := if x < lo then lo else x;
    if y > hi then hi else y
  }

  /** From the coordinates of the parent's content to those of the document. */
  function RemapChild(sub: Chunk, parent: Chunk): Chunk {
    var synthetic := parent.synthetic;
    if synthetic == 0 then sub.(start := sub.start + parent.start, end := sub.end + parent.start)
    else
      var bodyLen := if sub.end - sub.start < 0 then 0 else sub.end - sub.start;
      var inherited := Clamp(synthetic - sub.start, 0, bodyLen);
      var sourceStart := if sub.start - synthetic < 0 then 0 else sub.start - synthetic;
      var sourceEnd := if sub.end - synthetic < 0 then 0 else sub.end - synthetic;
      sub.(start := parent.start + sourceStart, end := parent.start + sourceEnd, synthetic := sub.synthetic + inherited)
  }

  /**
   * The mapping is exact for every verbatim parent and child, also when the child starts or even
   * ends inside the header injected into its parent.
   */
  lemma RemapVerbatim(src: string, parent: Chunk, sub: Chunk)
    requires Verbatim(src, parent) && Verbatim(parent.content, sub)
    ensures var c := RemapChild(sub, parent);
            Verbatim(src, c) && parent.start <= c.start <= c.end <= parent.end && c.content == sub.content
  {
    hide RemapChild;
    var p := parent.synthetic;
    var from := if sub.end <= p then sub.end else if sub.start < p then p else sub.start;
    RemapOffsets(src, parent, sub);
    ContentTail(parent.content, sub, from);
    if sub.end > p {
      BodySlice(src, parent, from, sub.end);
    }
  }

  lemma ContentTail(text: string, sub: Chunk, from: int)
    requires Verbatim(text, sub) && sub.start <= from <= sub.end
    ensures var k := sub.synthetic + (from - sub.start);
            0 <= k <= |sub.content| && sub.content[k..] == text[from..sub.end]
  {
    DropMore(sub.content, sub.synthetic, text[sub.start..sub.end], from - sub.start);
    TailOfSlice(text, sub.start, sub.end, from);
  }

  lemma TailOfSlice(s: string, from: nat, to: nat, k: nat)
    requires from <= k <= to <= |s|
    ensures s[from..to][k - from..] == s[k..to]
  {
  }

  lemma RemapOffsets(src: string, parent: Chunk, sub: Chunk)
    requires Verbatim(src, parent) && Verbatim(parent.content, sub)
    ensures var c, p := RemapChild(sub, parent), parent.synthetic;
            var from := if sub.end <= p then sub.end else if sub.start < p then p else sub.start;
            && c.content == sub.content && c.synthetic == sub.synthetic + (from - sub.start)
            && parent.start <= c.start <= c.end <= parent.end
            && (if sub.end <= p then c.start == c.end else c.start == parent.start + from - p && c.end == parent.start + sub.end - p)
  {
    assert |parent.content| - parent.synthetic == parent.end - parent.start by {
      assert |parent.content[parent.synthetic..]| == |src[parent.start..parent.end]|;
    }
  }

  lemma DropMore(s: string, a: nat, tail: string, b: nat)
    requires a <= |s| && s[a..] == tail && b <= |tail|
    ensures a + b <= |s| && s[a + b..] == tail[b..]
  {
  }

  /** Past its synthetic prefix, a slice of a parent's content is a slice of the document. */
  lemma BodySlice(src: string, parent: Chunk, from: nat, to: nat)
    requires Verbatim(src, parent) && parent.synthetic <= from <= to <= |parent.content|
    ensures parent.start + to - parent.synthetic <= parent.end
    ensures parent.content[from..to] == src[parent.start + from - parent.synthetic..parent.start + to - parent.synthetic]
  {
    var p := parent.synthetic;
    assert parent.content[from..to] == parent.content[p..][from - p..to - p];
    SliceOfSlice(src, parent.start, parent.end, from - p, to - p);
  }

  /** A source rune that a child's local range covers is covered by the mapped child. */
  lemma RemapCovers(src: string, parent: Chunk, sub: Chunk, k: int)
    requires Verbatim(src, parent) && Verbatim(parent.content, sub) && parent.start <= k < parent.end
    requires sub.start <= parent.synthetic + k - parent.start < sub.end
    ensures RemapChild(sub, parent).start <= k < RemapChild(sub, parent).end
  {
  }

  // ---- mergeBreadcrumbs -----------------------------------------------------

  function MergeBreadcrumbs(parent: string, child: string): string {
    if parent == "" then child
    else if child == "" then parent
    else
      var p, c := Split(parent), Split(child);
      var rest := if TrimSpace(p[|p| - 1]) == TrimSpace(c[0]) then c[1..] else c;
      if rest == [] then parent else parent + "\n" + Join(rest)
  }

  /** The parent's lines, then the child's without a first line that repeats the parent's last. */
  lemma MergedLines(parent: string, child: string)
    requires parent != "" && child != ""
    ensures var p, c := Split(parent), Split(child);
            Split(MergeBreadcrumbs(parent, child)) == p + if TrimSpace(p[|p| - 1]) == TrimSpace(c[0]) then c[1..] else c
  {
    hide TrimSpace, Split, Join;
    var p, c := Split(parent), Split(child);
    var rest := if TrimSpace(p[|p| - 1]) == TrimSpace(c[0]) then c[1..] else c;
    if rest == [] {
      assert p + rest == p;
    } else {
      JoinSplit(parent);
      JoinAppend(p, rest);
      SplitJoin(p + rest);
    }
  }

  // ---- the assembled result -------------------------------------------------

  /** A parent row is made only when the parent does not consist of one identical child. */
  predicate Materialised(parent: Chunk, subs: seq<Chunk>) {
    |subs| > 1 || (|subs| == 1 && subs[0].content != parent.content)
  }

  datatype Source = Source(markdown: string, pages: seq<int>)

  /** The j-th child of a parent, in document coordinates. */
  function ChildOf(src: Source, hash: string -> string, parent: Chunk, sub: Chunk, seqNo: nat, parentIndex: int): ChildChunk {
    var c := RemapChild(sub, parent);
    ChildChunk(c.(seqNo := seqNo, contextHeader := MergeBreadcrumbs(parent.contextHeader, sub.contextHeader),
                  pages := PagesOf(src.markdown, src.pages, c.start, c.end)),
               parentIndex, hash(parent.content))
  }

  /** The result once a parent and its children have been added. */
  function Grow(src: Source, hash: string -> string, r: ParentChildResult, parent: Chunk, subs: seq<Chunk>): ParentChildResult {
    var seqNo := |r.parents| + |r.children|;
    var made := Materialised(parent, subs);
    var first := if made then seqNo + 1 else seqNo;
    var index := if made then |r.parents| else -1;
    ParentChildResult(
      r.parents + if made
                  then [parent.(seqNo := seqNo, pages := PagesOf(src.markdown, src.pages, parent.start, parent.end))]
                  else [],
      r.children + seq(|subs|, j requires 0 <= j < |subs| => ChildOf(src, hash, parent, subs[j], first + j, index)))
  }

  function Assembled(src: Source, hash: string -> string, parents: seq<Chunk>, subs: seq<seq<Chunk>>): ParentChildResult
    requires |subs| == |parents|
  {
    if parents == [] then ParentChildResult([], [])
    else
      var n := |parents| - 1;
      Grow(src, hash, Assembled(src, hash, parents[..n], subs[..n]), parents[n], subs[n])
  }

  /** Which sub-chunk of which parent each child came from. */
  function Origins(subs: seq<seq<Chunk>>): (o: seq<(nat, nat)>)
    ensures forall i :: 0 <= i < |o| ==> o[i].0 < |subs| && o[i].1 < |subs[o[i].0]|
  {
    if subs == [] then []
    else Origins(subs[..|subs| - 1]) + seq(|subs[|subs| - 1]|, j requires 0 <= j < |subs[|subs| - 1]| => (|subs| - 1, j))
  }

  /** Earlier parents first, and a parent's sub-chunks in order. */
  predicate Earlier(a: (nat, nat), b: (nat, nat)) {
    a.0 < b.0 || (a.0 == b.0 && a.1 < b.1)
  }

  predicate HasOrigin(o: seq<(nat, nat)>, p: nat, j: nat) {
    (p, j) in o
  }

  predicate AllListed(subs: seq<seq<Chunk>>, o: seq<(nat, nat)>) {
    forall p, j :: 0 <= p < |subs| && 0 <= j < |subs[p]| ==> HasOrigin(o, p, j)
  }

  /** Every sub-chunk has exactly one child, in the order of the sub-chunks. */
  lemma {:induction false} OriginsInOrder(subs: seq<seq<Chunk>>)
    ensures var o := Origins(subs);
            && (forall i, j :: 0 <= i < j < |o| ==> Earlier(o[i], o[j]))
            && AllListed(subs, o)
    decreases |subs|
  {
    if subs == [] {
    } else {
      var n := |subs| - 1;
      OriginsInOrder(subs[..n]);
      forall p, j | 0 <= p < |subs| && 0 <= j < |subs[p]| ensures HasOrigin(Origins(subs), p, j) {
        OriginListed(subs, p, j);
      }
    }
  }

  lemma OriginListed(subs: seq<seq<Chunk>>, p: nat, j: nat)
    requires p < |subs| && j < |subs[p]|
    requires AllListed(subs[..|subs| - 1], Origins(subs[..|subs| - 1]))
    ensures HasOrigin(Origins(subs), p, j)
  {
    var n := |subs| - 1;
    var o := Origins(subs);
    if p < n {
      assert subs[..n][p] == subs[p];
      assert HasOrigin(Origins(subs[..n]), p, j);
    } else {
      assert o[|Origins(subs[..n])| + j] == (p, j);
    }
  }

  /** The parents that get a row. */
  function RowsOf(parents: seq<Chunk>, subs: seq<seq<Chunk>>): (rows: seq<nat>)
    requires |subs| == |parents|
  {
    if parents == [] then []
    else
      var n := |parents| - 1;
      RowsOf(parents[..n], subs[..n]) + if Materialised(parents[n], subs[n]) then [n] else []
  }

  /** Rows numbered so far. */
  function Count(r: ParentChildResult): nat { |r.parents| + |r.children| }

  // ---- the splits and the families ------------------------------------------

  /** Every split involved lost and rewrote nothing. */
  predicate SplitsOk(markdown: string, parents: seq<Chunk>, subs: seq<seq<Chunk>>) {
    && TierOk(markdown, parents) && |subs| == |parents|
    && forall i :: 0 <= i < |subs| ==> TierOk(parents[i].content, subs[i])
  }

  ghost predicate AllVerbatimIn(markdown: string, parents: seq<Chunk>, subs: seq<seq<Chunk>>) {
    && AllVerbatim(markdown, parents) && |subs| == |parents|
    && forall i :: 0 <= i < |subs| ==> AllVerbatim(parents[i].content, subs[i])
  }

  method AddFamily(src: Source, mapper: PageMapper, hash: string -> string, r: ParentChildResult, parent: Chunk, subs: seq<Chunk>)
    returns (r': ParentChildResult)
    requires MapperFor(src.markdown, src.pages, mapper)
    ensures r' == Grow(src, hash, r, parent, subs)
  {
    hide MapperFor, PagesOf, MergeBreadcrumbs;
    var seqNo := |r.parents| + |r.children|;
    var parentIndex := -1;
    var newParents := r.parents;
    if |subs| > 1 || (|subs| == 1 && subs[0].content != parent.content) {
      parentIndex := |newParents|;
      var range := RangeFor(mapper, parent.start, parent.end, src.markdown, src.pages);
      newParents := newParents + [parent.(seqNo := seqNo, pages := range)];
      seqNo := seqNo + 1;
    }
    ghost var first := seqNo;
    var added: seq<ChildChunk> := [];
    for j := 0 to |subs|
      invariant |added| == j && seqNo == first + j
      invariant forall i :: 0 <= i < j ==> added[i] == ChildOf(src, hash, parent, subs[i], first + i, parentIndex)
    {
      var sub := RemapChild(subs[j], parent);
      sub := sub.(seqNo := seqNo, contextHeader := MergeBreadcrumbs(parent.contextHeader, sub.contextHeader));
      var range := RangeFor(mapper, sub.start, sub.end, src.markdown, src.pages);
      seqNo := seqNo + 1;
      added := added + [ChildChunk(sub.(pages := range), parentIndex, hash(parent.content))];
    }
    r' := ParentChildResult(newParents, r.children + added);
    assert newParents == Grow(src, hash, r, parent, subs).parents;
    assert r'.children == Grow(src, hash, r, parent, subs).children;
  }

  // ---- what the result promises ---------------------------------------------

  /** merged is the parent's lines and then the child's, without a first line that repeats the parent's last. */
  predicate HeadersMerged(parent: string, child: string, merged: string) {
    if parent == "" then merged == child
    else if child == "" then merged == parent
    else
      var p, c := Split(parent), Split(child);
      Split(merged) == p + if TrimSpace(p[|p| - 1]) == TrimSpace(c[0]) then c[1..] else c
  }

  predicate Spans(c: Chunk, k: int) {
    c.start <= k < c.end
  }

  /** A rune of the parent's source text is in the child exactly when it is in the sub-chunk. */
  ghost predicate SameRunes(parent: Chunk, sub: Chunk, c: Chunk) {
    && parent.start <= c.start <= c.end <= parent.end
    && forall k :: parent.start <= k < parent.end ==> (Spans(c, k) <==> Spans(sub, parent.synthetic + k - parent.start))
  }

  /**
   * The child of sub-chunk j: its text, verbatim and in place, under the parent's breadcrumb and
   * its own, with its own pages, its parent's hash, and the index of its parent's row, if any.
   */
  ghost predicate ChildOk(src: Source, hash: string -> string, r: ParentChildResult, rows: seq<nat>, parent: Chunk, subs: seq<Chunk>, p: nat, j: nat,
                          c: ChildChunk)
    requires j < |subs|
  {
    && Verbatim(src.markdown, c.chunk) && c.chunk.content == subs[j].content && SameRunes(parent, subs[j], c.chunk)
    && HeadersMerged(parent.contextHeader, subs[j].contextHeader, c.chunk.contextHeader)
    && c.chunk.pages == PagesOf(src.markdown, src.pages, c.chunk.start, c.chunk.end)
    && c.parentHash == hash(parent.content)
    && if |subs| > 1 || subs[0].content != parent.content then
         && 0 <= c.parentIndex < |rows| == |r.parents| && rows[c.parentIndex] == p
         && r.parents[c.parentIndex].seqNo < c.chunk.seqNo
       else c.parentIndex == -1
  }

  /** A parent's row is the parent, with its own pages. */
  ghost predicate ParentOk(src: Source, parent: Chunk, row: Chunk) {
    && Verbatim(src.markdown, row) && row.pages == PagesOf(src.markdown, src.pages, row.start, row.end)
    && row.(seqNo := parent.seqNo, pages := parent.pages) == parent
  }

  /** Child c of the result came from sub-chunk o.1 of parent o.0. */
  ghost predicate ChildFrom(src: Source, hash: string -> string, parents: seq<Chunk>, subs: seq<seq<Chunk>>, r: ParentChildResult, rows: seq<nat>,
                            c: ChildChunk, o: (nat, nat))
  {
    && o.0 < |parents| == |subs| && o.1 < |subs[o.0]|
    && ChildOk(src, hash, r, rows, parents[o.0], subs[o.0], o.0, o.1, c)
  }

  /** Exactly the parents that are not one identical child have a row, in order. */
  ghost predicate RowsOk(src: Source, parents: seq<Chunk>, subs: seq<seq<Chunk>>, r: ParentChildResult, rows: seq<nat>) {
    && |subs| == |parents| && |rows| == |r.parents| && (forall i, j :: 0 <= i < j < |rows| ==> rows[i] < rows[j])
    && (forall i :: 0 <= i < |rows| ==> rows[i] < |parents| && ParentOk(src, parents[rows[i]], r.parents[i]))
    && (forall p :: 0 <= p < |parents| ==>
          (p in rows <==> |subs[p]| > 1 || (|subs[p]| == 1 && subs[p][0].content != parents[p].content)))
  }

  /** The children come from all sub-chunks of all parents, in order. */
  ghost predicate FamiliesOk(src: Source, hash: string -> string, parents: seq<Chunk>, subs: seq<seq<Chunk>>, r: ParentChildResult, rows: seq<nat>,
                             o: seq<(nat, nat)>) {
    && |o| == |r.children| && (forall i, j :: 0 <= i < j < |o| ==> Earlier(o[i], o[j]))
    && AllListed(subs, o)
    && (forall i :: 0 <= i < |o| ==> ChildFrom(src, hash, parents, subs, r, rows, r.children[i], o[i]))
    && RowsOk(src, parents, subs, r, rows)
  }

  /** End to end: every child and parent row of every document, configuration and tier choice. */
  lemma EveryChildOk(src: Source, hash: string -> string, parents: seq<Chunk>, subs: seq<seq<Chunk>>)
    requires AllVerbatimIn(src.markdown, parents, subs)
    ensures FamiliesOk(src, hash, parents, subs, Assembled(src, hash, parents, subs), RowsOf(parents, subs), Origins(subs))
  {
    hide Assembled, Origins, RowsOf, ChildFrom, RowsOk;
    OriginsInOrder(subs);
    ChildrenOk(src, hash, parents, subs);
    ParentRowsOk(src, hash, parents, subs);
  }

  ghost predicate ChildrenFrom(src: Source, hash: string -> string, parents: seq<Chunk>, subs: seq<seq<Chunk>>, r: ParentChildResult, rows: seq<nat>,
                               o: seq<(nat, nat)>) {
    && |rows| == |r.parents| && |o| == |r.children|
    && forall i :: 0 <= i < |o| ==> ChildFrom(src, hash, parents, subs, r, rows, r.children[i], o[i])
  }

  lemma {:induction false} ChildrenOk(src: Source, hash: string -> string, parents: seq<Chunk>, subs: seq<seq<Chunk>>)
    requires AllVerbatimIn(src.markdown, parents, subs)
    ensures ChildrenFrom(src, hash, parents, subs, Assembled(src, hash, parents, subs), RowsOf(parents, subs), Origins(subs))
    decreases |parents|
  {
    hide AllVerbatimIn, Verbatim, AllVerbatim, Grow, ChildrenFrom, ChildOk, ParentOk, Materialised;
    if parents == [] {
      NoChildren(src, hash);
      LastOf(src.markdown, parents, subs);
    } else {
      var n := |parents| - 1;
      LastOf(src.markdown, parents, subs);
      var ps, ss := parents[..n], subs[..n];
      ChildrenOk(src, hash, ps, ss);
      ChildrenMore(src, hash, ps, ss, Assembled(src, hash, ps, ss), RowsOf(ps, ss), Origins(ss), parents[n], subs[n]);
    }
  }

  lemma NoChildren(src: Source, hash: string -> string)
    ensures ChildrenFrom(src, hash, [], [], ParentChildResult([], []), [], [])
    ensures RowsOk(src, [], [], ParentChildResult([], []), [])
  {
  }

  /** The last family, and those before it. */
  lemma LastOf(markdown: string, parents: seq<Chunk>, subs: seq<seq<Chunk>>)
    requires AllVerbatimIn(markdown, parents, subs)
    ensures |parents| == |subs|
    ensures parents != [] ==>
              var n := |parents| - 1;
              && AllVerbatimIn(markdown, parents[..n], subs[..n]) && Verbatim(markdown, parents[n]) && AllVerbatim(parents[n].content, subs[n])
              && parents == parents[..n] + [parents[n]] && subs == subs[..n] + [subs[n]]
  {
    hide Verbatim;
  }

  lemma ChildrenMore(src: Source, hash: string -> string, parents: seq<Chunk>, subs: seq<seq<Chunk>>, r: ParentChildResult, rows: seq<nat>,
                     o: seq<(nat, nat)>, parent: Chunk, group: seq<Chunk>)
    requires ChildrenFrom(src, hash, parents, subs, r, rows, o) && |parents| == |subs|
    requires Verbatim(src.markdown, parent) && AllVerbatim(parent.content, group)
    ensures ChildrenFrom(src, hash, parents + [parent], subs + [group], Grow(src, hash, r, parent, group),
                         rows + if Materialised(parent, group) then [|parents|] else [],
                         o + seq(|group|, j requires 0 <= j < |group| => (|parents|, j)))
  {
    hide Verbatim, AllVerbatim, Grow, ChildFrom, ChildOk, ParentOk, Materialised;
    var n := |parents|;
    NewFamily(src, hash, r, rows, parent, group, n);
    var r' := Grow(src, hash, r, parent, group);
    var rows' := rows + if Materialised(parent, group) then [n] else [];
    var o' := o + seq(|group|, j requires 0 <= j < |group| => (n, j));
    forall i | 0 <= i < |o'| ensures ChildFrom(src, hash, parents + [parent], subs + [group], r', rows', r'.children[i], o'[i]) {
      if i < |o| {
        OldChild(src, hash, parents, subs, r, rows, r.children[i], o[i], parent, group, r', rows');
      } else {
        NewChild(src, hash, parents + [parent], subs + [group], r', rows', r'.children[i], i - |o|);
      }
    }
  }

  lemma NewFamily(src: Source, hash: string -> string, r: ParentChildResult, rows: seq<nat>, parent: Chunk, subs: seq<Chunk>, p: nat)
    requires Verbatim(src.markdown, parent) && AllVerbatim(parent.content, subs) && |rows| == |r.parents|
    ensures var r' := Grow(src, hash, r, parent, subs);
            var rows' := rows + if Materialised(parent, subs) then [p] else [];
            && |r'.children| == |r.children| + |subs| && r.parents <= r'.parents && r.children <= r'.children && |rows'| == |r'.parents|
            && (forall i :: |r.children| <= i < |r'.children| ==> ChildOk(src, hash, r', rows', parent, subs, p, i - |r.children|, r'.children[i]))
            && (Materialised(parent, subs) ==> ParentOk(src, parent, r'.parents[|r.parents|]))
  {
    hide PagesOf, MergeBreadcrumbs, RemapChild, Verbatim, SameRunes, HeadersMerged;
    var r' := Grow(src, hash, r, parent, subs);
    var rows' := rows + if Materialised(parent, subs) then [p] else [];
    forall i | |r.children| <= i < |r'.children| ensures ChildOk(src, hash, r', rows', parent, subs, p, i - |r.children|, r'.children[i]) {
      var j, c := i - |r.children|, r'.children[i].chunk;
      RemapVerbatim(src.markdown, parent, subs[j]);
      SameSlice(src.markdown, RemapChild(subs[j], parent), c);
      RemapRunes(src.markdown, parent, subs[j], c);
      BreadcrumbsMerge(parent.contextHeader, subs[j].contextHeader);
    }
    if Materialised(parent, subs) {
      SameSlice(src.markdown, parent, r'.parents[|r.parents|]);
    }
  }

  lemma BreadcrumbsMerge(parent: string, child: string)
    ensures HeadersMerged(parent, child, MergeBreadcrumbs(parent, child))
  {
    if parent != "" && child != "" {
      MergedLines(parent, child);
    }
  }

  lemma RemapRunes(src: string, parent: Chunk, sub: Chunk, c: Chunk)
    requires Verbatim(src, parent) && Verbatim(parent.content, sub)
    requires c.start == RemapChild(sub, parent).start && c.end == RemapChild(sub, parent).end
    ensures SameRunes(parent, sub, c)
  {
    RemapVerbatim(src, parent, sub);
    hide Verbatim;
  }

  lemma SameSlice(src: string, a: Chunk, b: Chunk)
    requires Verbatim(src, a) && a.content == b.content && a.start == b.start && a.end == b.end && a.synthetic == b.synthetic
    ensures Verbatim(src, b)
  {
  }

  lemma OldChild(src: Source, hash: string -> string, parents: seq<Chunk>, subs: seq<seq<Chunk>>, r: ParentChildResult, rows: seq<nat>, c: ChildChunk,
                 o: (nat, nat), parent: Chunk, group: seq<Chunk>, r': ParentChildResult, rows': seq<nat>)
    requires ChildFrom(src, hash, parents, subs, r, rows, c, o) && r.parents <= r'.parents && rows <= rows'
    requires |rows| == |r.parents| && |rows'| == |r'.parents|
    ensures ChildFrom(src, hash, parents + [parent], subs + [group], r', rows', c, o)
  {
    hide Verbatim, PagesOf, SameRunes, HeadersMerged;
  }

  lemma NewChild(src: Source, hash: string -> string, parents: seq<Chunk>, subs: seq<seq<Chunk>>, r: ParentChildResult, rows: seq<nat>, c: ChildChunk,
                 j: nat)
    requires |parents| == |subs| > 0 && j < |subs[|subs| - 1]|
    requires ChildOk(src, hash, r, rows, parents[|parents| - 1], subs[|subs| - 1], |parents| - 1, j, c)
    ensures ChildFrom(src, hash, parents, subs, r, rows, c, (|parents| - 1, j))
  {
  }

  lemma {:induction false} ParentRowsOk(src: Source, hash: string -> string, parents: seq<Chunk>, subs: seq<seq<Chunk>>)
    requires AllVerbatimIn(src.markdown, parents, subs)
    ensures RowsOk(src, parents, subs, Assembled(src, hash, parents, subs), RowsOf(parents, subs))
    decreases |parents|
  {
    hide AllVerbatimIn, Verbatim, AllVerbatim, Grow, RowsOk, ChildOk, ParentOk, Materialised;
    if parents == [] {
      NoChildren(src, hash);
      LastOf(src.markdown, parents, subs);
    } else {
      var n := |parents| - 1;
      LastOf(src.markdown, parents, subs);
      var ps, ss := parents[..n], subs[..n];
      ParentRowsOk(src, hash, ps, ss);
      RowsListed(src, ps, ss, Assembled(src, hash, ps, ss), RowsOf(ps, ss));
      NewFamily(src, hash, Assembled(src, hash, ps, ss), RowsOf(ps, ss), parents[n], subs[n], n);
      RowsMore(src, ps, ss, Assembled(src, hash, ps, ss), RowsOf(ps, ss), parents[n], subs[n], Assembled(src, hash, parents, subs));
    }
  }

  lemma RowsListed(src: Source, parents: seq<Chunk>, subs: seq<seq<Chunk>>, r: ParentChildResult, rows: seq<nat>)
    requires RowsOk(src, parents, subs, r, rows)
    ensures |rows| == |r.parents|
  {
  }

  lemma RowsMore(src: Source, parents: seq<Chunk>, subs: seq<seq<Chunk>>, r: ParentChildResult, rows: seq<nat>, parent: Chunk, group: seq<Chunk>,
                 r': ParentChildResult)
    requires RowsOk(src, parents, subs, r, rows) && r.parents <= r'.parents
    requires |r'.parents| == |r.parents| + if Materialised(parent, group) then 1 else 0
    requires Materialised(parent, group) ==> ParentOk(src, parent, r'.parents[|r.parents|])
    ensures RowsOk(src, parents + [parent], subs + [group], r', rows + if Materialised(parent, group) then [|parents|] else [])
  {
    hide ParentOk;
    var n := |parents|;
    var rows' := rows + if Materialised(parent, group) then [n] else [];
    assert forall p :: p in rows' <==> p in rows || (p == n && Materialised(parent, group));
    assert forall i :: 0 <= i < |rows| ==> rows[i] in rows;
  }

  // ---- nothing is lost ------------------------------------------------------

  predicate InChild(r: ParentChildResult, k: int) {
    exists i :: 0 <= i < |r.children| && r.children[i].chunk.start <= k < r.children[i].chunk.end
  }

  /** Every non-whitespace rune of the document lies in the range of some child. */
  lemma ChildrenCover(src: Source, hash: string -> string, parents: seq<Chunk>, subs: seq<seq<Chunk>>, k: int)
    requires SplitsOk(src.markdown, parents, subs)
    requires 0 <= k < |src.markdown| && !IsSpace(src.markdown[k])
    ensures InChild(Assembled(src, hash, parents, subs), k)
  {
    hide Assembled;
    assert InSome(parents, k);
    var p :| 0 <= p < |parents| && parents[p].start <= k < parents[p].end;
    var parent := parents[p];
    assert Verbatim(src.markdown, parent) && TierOk(parent.content, subs[p]);
    var local := parent.synthetic + k - parent.start;
    assert parent.content[parent.synthetic..][k - parent.start] == src.markdown[parent.start..parent.end][k - parent.start];
    assert InSome(subs[p], local);
    var j :| 0 <= j < |subs[p]| && subs[p][j].start <= local < subs[p][j].end;
    assert Verbatim(parent.content, subs[p][j]);
    RemapCovers(src.markdown, parent, subs[p][j], k);
    ChildPresent(src, hash, parents, subs, p, j, k);
  }

  /** Each sub-chunk appears among the children at its mapped range. */
  lemma {:induction false} ChildPresent(src: Source, hash: string -> string, parents: seq<Chunk>, subs: seq<seq<Chunk>>, p: nat, j: nat, k: int)
    requires |subs| == |parents| && p < |parents| && j < |subs[p]|
    requires RemapChild(subs[p][j], parents[p]).start <= k < RemapChild(subs[p][j], parents[p]).end
    ensures InChild(Assembled(src, hash, parents, subs), k)
    decreases |parents|
  {
    hide RemapChild, PagesOf, MergeBreadcrumbs;
    var n := |parents| - 1;
    var r := Assembled(src, hash, parents[..n], subs[..n]);
    var r' := Assembled(src, hash, parents, subs);
    if p == n {
      var c := r'.children[|r.children| + j];
      assert c.chunk.start <= k < c.chunk.end;
    } else {
      ChildPresent(src, hash, parents[..n], subs[..n], p, j, k);
      var i :| 0 <= i < |r.children| && r.children[i].chunk.start <= k < r.children[i].chunk.end;
      assert r'.children[i] == r.children[i];
    }
  }

  // ---- one sequence ---------------------------------------------------------

  predicate AscendingSeq(r: ParentChildResult) {
    && (forall i, j :: 0 <= i < j < |r.parents| ==> r.parents[i].seqNo < r.parents[j].seqNo)
    && (forall i, j :: 0 <= i < j < |r.children| ==> r.children[i].chunk.seqNo < r.children[j].chunk.seqNo)
  }

  predicate ParentHas(r: ParentChildResult, s: int) {
    exists i :: 0 <= i < |r.parents| && r.parents[i].seqNo == s
  }

  predicate ChildHas(r: ParentChildResult, s: int) {
    exists i :: 0 <= i < |r.children| && r.children[i].chunk.seqNo == s
  }

  /** Parents and children share one dense sequence: each number belongs to exactly one row. */
  ghost predicate OneSequence(r: ParentChildResult) {
    && AscendingSeq(r)
    && (forall s :: 0 <= s < Count(r) ==> (ParentHas(r, s) <==> !ChildHas(r, s)))
    && (forall s :: s < 0 || Count(r) <= s ==> !ParentHas(r, s) && !ChildHas(r, s))
  }

  lemma {:induction false} SharedSequence(src: Source, hash: string -> string, parents: seq<Chunk>, subs: seq<seq<Chunk>>)
    requires |subs| == |parents|
    ensures OneSequence(Assembled(src, hash, parents, subs))
    decreases |parents|
  {
    hide Grow, AscendingSeq, ParentHas, ChildHas;
    if parents == [] {
      NothingNumbered();
    } else {
      var n := |parents| - 1;
      SharedSequence(src, hash, parents[..n], subs[..n]);
      GrowSequence(src, hash, Assembled(src, hash, parents[..n], subs[..n]), parents[n], subs[n]);
    }
  }

  lemma NothingNumbered()
    ensures OneSequence(ParentChildResult([], []))
  {
  }

  lemma GrowSequence(src: Source, hash: string -> string, r: ParentChildResult, parent: Chunk, subs: seq<Chunk>)
    requires OneSequence(r)
    ensures OneSequence(Grow(src, hash, r, parent, subs))
  {
    hide ParentHas, ChildHas;
    GrowAscending(src, hash, r, parent, subs);
    hide AscendingSeq;
    var r' := Grow(src, hash, r, parent, subs);
    var c := Count(r);
    forall s {
      GrowNumbers(src, hash, r, parent, subs, s);
    }
  }

  lemma BelowCount(r: ParentChildResult)
    requires OneSequence(r)
    ensures forall i :: 0 <= i < |r.parents| ==> r.parents[i].seqNo < Count(r)
    ensures forall i :: 0 <= i < |r.children| ==> r.children[i].chunk.seqNo < Count(r)
  {
    forall i | 0 <= i < |r.parents| ensures r.parents[i].seqNo < Count(r) {
      assert ParentHas(r, r.parents[i].seqNo);
    }
    forall i | 0 <= i < |r.children| ensures r.children[i].chunk.seqNo < Count(r) {
      assert ChildHas(r, r.children[i].chunk.seqNo);
    }
  }

  lemma GrowAscending(src: Source, hash: string -> string, r: ParentChildResult, parent: Chunk, subs: seq<Chunk>)
    requires OneSequence(r)
    ensures AscendingSeq(Grow(src, hash, r, parent, subs))
  {
    hide RemapChild, PagesOf, MergeBreadcrumbs, ParentHas, ChildHas;
    BelowCount(r);
  }

  /** Growing hands the new parent the next number and the new children those after it. */
  lemma GrowNumbers(src: Source, hash: string -> string, r: ParentChildResult, parent: Chunk, subs: seq<Chunk>, s: int)
    ensures var r', c := Grow(src, hash, r, parent, subs), Count(r);
            var made := Materialised(parent, subs);
            && Count(r') == c + |subs| + (if made then 1 else 0)
            && (ParentHas(r', s) <==> ParentHas(r, s) || (made && s == c))
            && (ChildHas(r', s) <==> ChildHas(r, s) || (if made then c + 1 else c) <= s < Count(r'))
  {
    hide RemapChild, PagesOf, MergeBreadcrumbs, Materialised;
    var r', c := Grow(src, hash, r, parent, subs), Count(r);
    var first := if Materialised(parent, subs) then c + 1 else c;
    if ParentHas(r, s) {
      var i :| 0 <= i < |r.parents| && r.parents[i].seqNo == s;
      assert r'.parents[i].seqNo == s;
    }
    if Materialised(parent, subs) && s == c {
      assert r'.parents[|r.parents|].seqNo == s;
    }
    if ChildHas(r, s) {
      var i :| 0 <= i < |r.children| && r.children[i].chunk.seqNo == s;
      assert r'.children[i].chunk.seqNo == s;
    }
    if first <= s < Count(r') {
      assert r'.children[|r.children| + s - first].chunk.seqNo == s;
    }
  }

  // ---- splitParentChild -----------------------------------------------------

  lemma WholeResult(src: Source, hash: string -> string, parents: seq<Chunk>, subs: seq<seq<Chunk>>)
    requires SplitsOk(src.markdown, parents, subs)
    ensures var r := Assembled(src, hash, parents, subs);
            && FamiliesOk(src, hash, parents, subs, r, RowsOf(parents, subs), Origins(subs)) && OneSequence(r)
            && forall k :: 0 <= k < |src.markdown| && !IsSpace(src.markdown[k]) ==> InChild(r, k)
  {
    hide Assembled, InChild, OneSequence, FamiliesOk, Origins, RowsOf;
    EveryChildOk(src, hash, parents, subs);
    SharedSequence(src, hash, parents, subs);
    forall k | 0 <= k < |src.markdown| && !IsSpace(src.markdown[k]) ensures InChild(Assembled(src, hash, parents, subs), k) {
      ChildrenCover(src, hash, parents, subs, k);
    }
  }

  /** splitParentChild, for every document, configuration and tier choice; parents and subs are the chunk sets of the splits it ran. */
  method SplitParentChild(lex: Lexicon, markdown: string, pages: seq<int>, parentConfig: Config, childConfig: Config, hash: string -> string)
    returns (result: ParentChildResult, ghost parents: seq<Chunk>, ghost subs: seq<seq<Chunk>>, ghost outer: Diagnostics, ghost inner: seq<Diagnostics>)
    requires lex.Valid()
    ensures SplitsOk(markdown, parents, subs)
    ensures ChosenSplit(lex, markdown, EnsureDefaults(lex, parentConfig), parents, outer) && |inner| == |parents|
    ensures forall i :: 0 <= i < |parents| ==> ChosenSplit(lex, parents[i].content, EnsureDefaults(lex, childConfig), subs[i], inner[i])
    ensures result == Assembled(Source(markdown, pages), hash, parents, subs)
    ensures FamiliesOk(Source(markdown, pages), hash, parents, subs, result, RowsOf(parents, subs), Origins(subs)) && OneSequence(result)
    ensures forall k :: 0 <= k < |markdown| && !IsSpace(markdown[k]) ==> InChild(result, k)
  {
    hide EnsureDefaults, MapperFor, Grow, DiagnosticsOk, TierOk, HeadingTier.UnderGlobalCrumb, InChild, OneSequence,
         FamiliesOk, Origins, RowsOf, ChosenSplit;
    var parentCfg, childCfg := EnsureDefaults(lex, parentConfig), EnsureDefaults(lex, childConfig);
    DefaultsIdempotent(lex, parentConfig);
    DefaultsIdempotent(lex, childConfig);
    if markdown == "" {
      EmptyTier();
      NothingToSplit(lex, parentCfg);
      WholeResult(Source(markdown, pages), hash, [], []);
      return ParentChildResult([], []), [], [], NO_SPLIT, [];
    }
    var ps, diag := SplitWithDiagnostics(lex, markdown, parentCfg);
    parents, subs, outer, inner := ps, [], diag, [];
    assert ChosenSplit(lex, markdown, parentCfg, ps, diag);
    if |ps| == 0 {
      WholeResult(Source(markdown, pages), hash, ps, []);
      return ParentChildResult([], []), ps, [], diag, [];
    }
    var mapper := NewPageMapper(markdown, pages);
    var src := Source(markdown, pages);
    result := ParentChildResult([], []);
    assert ps[..0] == [];
    for i := 0 to |ps|
      invariant |subs| == i && result == Assembled(src, hash, ps[..i], subs)
      invariant forall j :: 0 <= j < i ==> TierOk(ps[j].content, subs[j])
      invariant |inner| == i && forall j :: 0 <= j < i ==> ChosenSplit(lex, ps[j].content, childCfg, subs[j], inner[j])
    {
      var group, childDiag := SplitWithDiagnostics(lex, ps[i].content, childCfg);
      result := AddFamily(src, mapper, hash, result, ps[i], group);
      assert ps[..i + 1][..i] == ps[..i] && (subs + [group])[..i] == subs;
      subs, inner := subs + [group], inner + [childDiag];
    }
    assert ps[..|ps|] == ps;
    WholeResult(src, hash, ps, subs);
  }

  // ---- pages nest -----------------------------------------------------------

  /** The child is not an empty one at the very end of a non-empty parent. */
  predicate Inside(parent: Chunk, c: Chunk) {
    c.start < parent.end || parent.start == parent.end
  }

  /** So is every mapped child that holds anything of its parent's content, be it only injected header. */
  lemma MappedInside(src: string, parent: Chunk, sub: Chunk)
    requires Verbatim(src, parent) && Verbatim(parent.content, sub) && sub.start < sub.end
    ensures Inside(parent, RemapChild(sub, parent))
  {
    RemapOffsets(src, parent, sub);
  }

  /** With pages in order, such a child's pages lie within those of the parent it came from. */
  lemma ChildPagesNest(src: Source, hash: string -> string, r: ParentChildResult, rows: seq<nat>, parent: Chunk, subs: seq<Chunk>, p: nat, j: nat,
                       c: ChildChunk)
    requires Nondecreasing(src.pages) && Verbatim(src.markdown, parent)
    requires j < |subs| && ChildOk(src, hash, r, rows, parent, subs, p, j, c) && Inside(parent, c.chunk)
    ensures var wide := PagesOf(src.markdown, src.pages, parent.start, parent.end);
            && (wide.Some? <==> c.chunk.pages.Some?)
            && (wide.Some? ==> wide.value.0 <= c.chunk.pages.value.0 <= c.chunk.pages.value.1 <= wide.value.1)
  {
    hide PagesOf;
    RangesNest(src.markdown, src.pages, parent.start, parent.end, c.chunk.start, c.chunk.end);
  }
}
