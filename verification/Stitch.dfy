/** Stitching shard payloads into one document with a page per line. */
module Stitching {
  import opened Text
  import opened Chunks
  import opened Lines
  import opened Numbers
  import opened PageMap
  import opened PageBlocks
  import opened Sequences
  import opened Sorting

  // ---- overlap reconciliation -----------------------------------------------

  /** The trimmed line, when it is a heading. */
  function HeadingOf(line: string): Option<string> {
    var s := TrimSpace(line);
    if "#" <= s then Some(s) else None
  }

  predicate IsFirstHeading(lines: seq<string>, h: Option<string>) {
    if h.Some? then
      exists i :: 0 <= i < |lines| && HeadingOf(lines[i]) == h && forall j :: 0 <= j < i ==> HeadingOf(lines[j]).None?
    else forall j :: 0 <= j < |lines| ==> HeadingOf(lines[j]).None?
  }

  function FirstHeading(lines: seq<string>): (h: Option<string>)
    ensures IsFirstHeading(lines, h)
  {
    if lines == [] then None
    else if HeadingOf(lines[0]).Some? then HeadingOf(lines[0])
    else
      var h := FirstHeading(lines[1..]);
      assert h.Some? ==> exists i :: 0 <= i < |lines| && HeadingOf(lines[i]) == h && forall j :: 0 <= j < i ==> HeadingOf(lines[j]).None? by {
        if h.Some? {
          var i :| 0 <= i < |lines[1..]| && HeadingOf(lines[1..][i]) == h && forall j :: 0 <= j < i ==> HeadingOf(lines[1..][j]).None?;
          assert HeadingOf(lines[i + 1]) == h;
          forall j | 0 <= j < i + 1 ensures HeadingOf(lines[j]).None? { if j > 0 { assert lines[j] == lines[1..][j - 1]; } }
        }
      }
      assert h.None? ==> forall j :: 0 <= j < |lines| ==> HeadingOf(lines[j]).None? by {
        if h.None? {
          forall j | 0 <= j < |lines| ensures HeadingOf(lines[j]).None? { if j > 0 { assert lines[j] == lines[1..][j - 1]; } }
        }
      }
      h
  }

  function LastHeading(lines: seq<string>): Option<string> {
    if lines == [] then None
    else if HeadingOf(lines[|lines| - 1]).Some? then HeadingOf(lines[|lines| - 1])
    else LastHeading(lines[..|lines| - 1])
  }

  /** How many leading lines are blank. */
  function Lead(lines: seq<string>): (n: nat)
    ensures n <= |lines| && (forall i :: 0 <= i < n ==> Blank(lines[i])) && (n < |lines| ==> !Blank(lines[n]))
  {
    if lines != [] && Blank(lines[0]) then
      var n := Lead(lines[1..]);
      assert forall i :: 0 < i < n + 1 ==> lines[i] == lines[1..][i - 1];
      1 + n
    else 0
  }

  /** A shard's lines after the boundary heading it repeats, if any, has been dealt with. */
  function Deduped(before: seq<string>, doc: seq<string>): seq<string> {
    if doc != [] && before != [] && FirstHeading(doc).Some? && FirstHeading(doc) == LastHeading(before) then
      doc[1..][Lead(doc[1..])..]
    else doc
  }

  /**
   * When the shard repeats the boundary heading, what is dropped is its first line and the blank
   * lines under it. That is the repeated heading exactly when the shard opens with a heading;
   * otherwise another line is lost and the repeated heading stays.
   */
  lemma DropsFirstLineNotHeading(before: seq<string>, doc: seq<string>)
    requires doc != [] && before != [] && FirstHeading(doc).Some? && FirstHeading(doc) == LastHeading(before)
    ensures var kept := Deduped(before, doc);
            && |kept| < |doc| && kept == doc[|doc| - |kept|..]
            && (forall i :: 1 <= i < |doc| - |kept| ==> Blank(doc[i]))
            && (if HeadingOf(doc[0]).Some? then HeadingOf(doc[0]) == FirstHeading(doc) else FirstHeading(kept) == FirstHeading(doc))
  {
    hide Deduped, FirstHeading, LastHeading, HeadingOf, Lead, Blank, IsFirstHeading;
    DedupedIs(before, doc);
    LeadShift(doc);
    if HeadingOf(doc[0]).Some? {
      FirstIsHead(doc);
    } else {
      FirstHeadingSkips(doc, 1 + Lead(doc[1..]));
    }
  }

  lemma DedupedIs(before: seq<string>, doc: seq<string>)
    requires doc != [] && before != [] && FirstHeading(doc).Some? && FirstHeading(doc) == LastHeading(before)
    ensures Deduped(before, doc) == doc[1 + Lead(doc[1..])..]
  {
    hide FirstHeading, LastHeading, Lead, IsFirstHeading;
    DropTwice(doc, 1, Lead(doc[1..]));
  }

  lemma DropTwice(lines: seq<string>, a: nat, b: nat)
    requires a + b <= |lines|
    ensures lines[a..][b..] == lines[a + b..]
  {
  }

  lemma TakeTwice(lines: seq<string>, a: nat, b: nat)
    requires b <= a <= |lines|
    ensures lines[..a][..b] == lines[..b]
  {
  }

  lemma LeadShift(doc: seq<string>)
    requires doc != []
    ensures forall i :: 1 <= i < 1 + Lead(doc[1..]) ==> Blank(doc[i])
  {
    hide Blank;
    forall i | 1 <= i < 1 + Lead(doc[1..]) ensures Blank(doc[i]) {
      assert doc[i] == doc[1..][i - 1];
    }
  }

  lemma FirstIsHead(doc: seq<string>)
    requires doc != [] && HeadingOf(doc[0]).Some?
    ensures FirstHeading(doc) == HeadingOf(doc[0])
  {
  }

  lemma {:induction false} FirstHeadingSkips(doc: seq<string>, n: nat)
    requires n <= |doc| && forall i :: 0 <= i < n ==> HeadingOf(doc[i]).None? || Blank(doc[i])
    ensures FirstHeading(doc[n..]) == FirstHeading(doc)
  {
    hide HeadingOf;
    if n == 0 {
      assert doc[0..] == doc;
    } else {
      if Blank(doc[0]) { BlankIsNoHeading(doc[0]); }
      assert doc[1..][n - 1..] == doc[n..];
      FirstHeadingSkips(doc[1..], n - 1);
    }
  }

  /** A shard whose preamble comes before the repeated heading loses its preamble. */
  lemma PreambleLost()
    ensures Deduped(["#"], ["x", "#"]) == ["#"]
  {
    assert TrimLeft("#") == "#" && TrimRight("#") == "#" && TrimLeft("x") == "x" && TrimRight("x") == "x";
    assert ["x", "#"][1..] == ["#"];
    assert Lead(["#"]) == 0 by { assert "#"[0] == '#'; }
  }

  lemma BlankIsNoHeading(s: string)
    requires Blank(s)
    ensures HeadingOf(s).None?
  {
    TrimLeftAppend(s, "");
    assert s + "" == s;
  }

  // ---- the stitched lines ---------------------------------------------------

  datatype Acc = Acc(lines: seq<string>, pages: seq<int>)

  /** strings.TrimSuffix(md, "\n"), split into lines. */
  function DocLines(md: string): (ls: seq<string>)
    ensures AllLines(ls)
  {
    Split(if md != "" && md[|md| - 1] == '\n' then md[..|md| - 1] else md)
  }

  function StitchShard(acc: Acc, md: string, range: Option<(int, int)>): Acc {
    if md == "" then acc
    else
      var doc := Deduped(acc.lines, DocLines(md));
      Acc(acc.lines + doc, acc.pages + if range.Some? then ShardPages(range.value, |doc|) else [])
  }

  function RangeOf(ranges: map<int, (int, int)>, idx: int): Option<(int, int)> {
    if idx in ranges then Some(ranges[idx]) else None
  }

  /** The shards stitched in the given order; normalize unwraps a payload. */
  function StitchAll(normalize: string -> string, docs: map<int, string>, ranges: map<int, (int, int)>, idxs: seq<int>): Acc
    requires forall i :: 0 <= i < |idxs| ==> idxs[i] in docs
  {
    if idxs == [] then Acc([], [])
    else
      var n := |idxs| - 1;
      StitchShard(StitchAll(normalize, docs, ranges, idxs[..n]), normalize(docs[idxs[n]]), RangeOf(ranges, idxs[n]))
  }

  predicate OneLiners(lines: seq<string>) {
    forall i :: 0 <= i < |lines| ==> NoNewline(lines[i])
  }

  lemma DedupedIsSuffix(before: seq<string>, doc: seq<string>)
    ensures exists k :: 0 <= k <= |doc| && Deduped(before, doc) == doc[k..]
  {
    if Deduped(before, doc) == doc {
      assert doc[0..] == doc;
    } else {
      assert doc[1..][Lead(doc[1..])..] == doc[1 + Lead(doc[1..])..];
    }
  }

  lemma {:induction false} StitchedOneLiners(normalize: string -> string, docs: map<int, string>, ranges: map<int, (int, int)>, idxs: seq<int>)
    requires forall i :: 0 <= i < |idxs| ==> idxs[i] in docs
    ensures OneLiners(StitchAll(normalize, docs, ranges, idxs).lines)
    decreases |idxs|
  {
    if idxs == [] {
    } else {
      var n := |idxs| - 1;
      StitchedOneLiners(normalize, docs, ranges, idxs[..n]);
      var acc := StitchAll(normalize, docs, ranges, idxs[..n]);
      DedupedIsSuffix(acc.lines, DocLines(normalize(docs[idxs[n]])));
    }
  }

  lemma StitchNone(normalize: string -> string, docs: map<int, string>, ranges: map<int, (int, int)>)
    ensures StitchAll(normalize, docs, ranges, []) == Acc([], [])
  {
  }

  lemma StitchNext(normalize: string -> string, docs: map<int, string>, ranges: map<int, (int, int)>, idxs: seq<int>, i: nat)
    requires (forall j :: 0 <= j < |idxs| ==> idxs[j] in docs) && i < |idxs|
    ensures StitchAll(normalize, docs, ranges, idxs[..i + 1])
            == StitchShard(StitchAll(normalize, docs, ranges, idxs[..i]), normalize(docs[idxs[i]]), RangeOf(ranges, idxs[i]))
  {
    hide StitchShard;
    assert idxs[..i + 1][..i] == idxs[..i];
  }

  /** The number of lines shard i contributed. */
  function Contributed(normalize: string -> string, docs: map<int, string>, ranges: map<int, (int, int)>, idxs: seq<int>, i: nat): nat
    requires i < |idxs| && forall j :: 0 <= j < |idxs| ==> idxs[j] in docs
  {
    StitchNext(normalize, docs, ranges, idxs, i);
    |StitchAll(normalize, docs, ranges, idxs[..i + 1]).lines| - |StitchAll(normalize, docs, ranges, idxs[..i]).lines|
  }

  /** Every shard that contributed a line has a page range. */
  ghost predicate Ranged(normalize: string -> string, docs: map<int, string>, ranges: map<int, (int, int)>, idxs: seq<int>)
    requires forall j :: 0 <= j < |idxs| ==> idxs[j] in docs
  {
    forall i :: 0 <= i < |idxs| && Contributed(normalize, docs, ranges, idxs, i) > 0 ==> idxs[i] in ranges
  }

  /** One page per line, exactly when no contributing shard lacks a range. */
  lemma {:induction false} PagePerLine(normalize: string -> string, docs: map<int, string>, ranges: map<int, (int, int)>, idxs: seq<int>)
    requires forall j :: 0 <= j < |idxs| ==> idxs[j] in docs
    ensures var acc := StitchAll(normalize, docs, ranges, idxs);
            |acc.pages| <= |acc.lines| && (|acc.pages| == |acc.lines| <==> Ranged(normalize, docs, ranges, idxs))
    decreases |idxs|
  {
    hide StitchShard, Contributed;
    if idxs == [] {
    } else {
      hide StitchAll;
      PagePerLine(normalize, docs, ranges, idxs[..|idxs| - 1]);
      LastContributes(normalize, docs, ranges, idxs);
      RangedLast(normalize, docs, ranges, idxs);
    }
  }

  lemma RangedLast(normalize: string -> string, docs: map<int, string>, ranges: map<int, (int, int)>, idxs: seq<int>)
    requires idxs != [] && forall j :: 0 <= j < |idxs| ==> idxs[j] in docs
    ensures var n := |idxs| - 1;
            Ranged(normalize, docs, ranges, idxs) <==>
            Ranged(normalize, docs, ranges, idxs[..n]) && (Contributed(normalize, docs, ranges, idxs, n) > 0 ==> idxs[n] in ranges)
  {
    hide StitchAll;
    var n := |idxs| - 1;
    var before := idxs[..n];
    forall i | 0 <= i < n
      ensures before[i] == idxs[i] && Contributed(normalize, docs, ranges, idxs, i) == Contributed(normalize, docs, ranges, before, i)
    {
      assert before[..i + 1] == idxs[..i + 1] && before[..i] == idxs[..i];
    }
    hide Contributed;
  }

  lemma LastContributes(normalize: string -> string, docs: map<int, string>, ranges: map<int, (int, int)>, idxs: seq<int>)
    requires idxs != [] && forall j :: 0 <= j < |idxs| ==> idxs[j] in docs
    ensures var n := |idxs| - 1;
            var acc, last := StitchAll(normalize, docs, ranges, idxs[..n]), StitchAll(normalize, docs, ranges, idxs);
            var c := Contributed(normalize, docs, ranges, idxs, n);
            && |last.lines| == |acc.lines| + c
            && last.pages == acc.pages + if idxs[n] in ranges then ShardPages(ranges[idxs[n]], c) else []
  {
    hide StitchAll, Deduped, DocLines, ShardPages;
    StitchNext(normalize, docs, ranges, idxs, |idxs| - 1);
    assert idxs[..|idxs|] == idxs;
  }

  // ---- page order -----------------------------------------------------------

  /**
   * Ranges that follow each other in index order: a shared boundary page is allowed, and so is a
   * range that runs backwards so little that rounding toward zero keeps its lines on one page.
   */
  predicate Following(ranges: map<int, (int, int)>, idxs: seq<int>) {
    && (forall i :: 0 <= i < |idxs| && idxs[i] in ranges ==> Span(ranges[idxs[i]]) >= -1)
    && (forall i, j :: 0 <= i < j < |idxs| && idxs[i] in ranges && idxs[j] in ranges ==>
          Max(ranges[idxs[i]].0, ranges[idxs[i]].1) <= ranges[idxs[j]].0)
  }

  /** Every page comes from the range of some shard. */
  ghost predicate FromRanges(ranges: map<int, (int, int)>, idxs: seq<int>, pages: seq<int>) {
    forall k :: 0 <= k < |pages| ==> OfSomeRange(ranges, idxs, pages[k])
  }

  ghost predicate OfSomeRange(ranges: map<int, (int, int)>, idxs: seq<int>, page: int) {
    exists i :: 0 <= i < |idxs| && idxs[i] in ranges && ranges[idxs[i]].0 <= page <= Max(ranges[idxs[i]].0, ranges[idxs[i]].1)
  }

  /** With ranges ordered by index, pages never decrease and stay within the shards' ranges. */
  lemma {:induction false} StitchedPagesOrdered(normalize: string -> string, docs: map<int, string>, ranges: map<int, (int, int)>, idxs: seq<int>)
    requires (forall j :: 0 <= j < |idxs| ==> idxs[j] in docs) && Following(ranges, idxs)
    ensures var pages := StitchAll(normalize, docs, ranges, idxs).pages;
            Nondecreasing(pages) && FromRanges(ranges, idxs, pages)
    decreases |idxs|
  {
    if idxs == [] {
    } else {
      hide OfSomeRange, ShardPages, StitchAll, Contributed, Nondecreasing, FromRanges;
      var n := |idxs| - 1;
      StitchedPagesOrdered(normalize, docs, ranges, idxs[..n]);
      LastContributes(normalize, docs, ranges, idxs);
      var pages := StitchAll(normalize, docs, ranges, idxs[..n]).pages;
      OrderedMore(ranges, idxs, pages, Contributed(normalize, docs, ranges, idxs, n));
      assert pages + [] == pages;
    }
  }

  lemma OrderedMore(ranges: map<int, (int, int)>, idxs: seq<int>, pages: seq<int>, n: nat)
    requires idxs != [] && Following(ranges, idxs)
    requires Nondecreasing(pages) && FromRanges(ranges, idxs[..|idxs| - 1], pages)
    ensures Nondecreasing(pages) && FromRanges(ranges, idxs, pages)
    ensures idxs[|idxs| - 1] in ranges ==>
              var all := pages + ShardPages(ranges[idxs[|idxs| - 1]], n);
              Nondecreasing(all) && FromRanges(ranges, idxs, all)
  {
    hide ShardPages;
    var last := |idxs| - 1;
    forall k | 0 <= k < |pages|
      ensures OfSomeRange(ranges, idxs, pages[k]) && (idxs[last] in ranges ==> pages[k] <= ranges[idxs[last]].0)
    {
      var before := idxs[..last];
      assert OfSomeRange(ranges, before, pages[k]);
      var i :| 0 <= i < last && before[i] in ranges && ranges[before[i]].0 <= pages[k] <= Max(ranges[before[i]].0, ranges[before[i]].1);
      assert idxs[i] == before[i];
    }
    if idxs[last] in ranges {
      ShardPagesInRange(ranges[idxs[last]], n);
      forall p | ranges[idxs[last]].0 <= p <= Max(ranges[idxs[last]].0, ranges[idxs[last]].1) ensures OfSomeRange(ranges, idxs, p) {
      }
    }
  }

  // ---- the page map as blocks -----------------------------------------------

  /** A shard without a range has no pages; it matters only when it contributes nothing. */
  function BlockOf(normalize: string -> string, docs: map<int, string>, ranges: map<int, (int, int)>, idxs: seq<int>, i: nat): Block
    requires i < |idxs| && forall j :: 0 <= j < |idxs| ==> idxs[j] in docs
  {
    Block(if idxs[i] in ranges then ranges[idxs[i]] else (0, 0), Contributed(normalize, docs, ranges, idxs, i))
  }

  function BlocksOf(normalize: string -> string, docs: map<int, string>, ranges: map<int, (int, int)>, idxs: seq<int>): (bs: seq<Block>)
    requires forall j :: 0 <= j < |idxs| ==> idxs[j] in docs
    ensures |bs| == |idxs|
  {
    seq(|idxs|, i requires 0 <= i < |idxs| => BlockOf(normalize, docs, ranges, idxs, i))
  }

  /** What holds of the shards before the last one does not depend on it. */
  lemma BlocksFront(normalize: string -> string, docs: map<int, string>, ranges: map<int, (int, int)>, idxs: seq<int>)
    requires idxs != [] && forall j :: 0 <= j < |idxs| ==> idxs[j] in docs
    ensures BlocksOf(normalize, docs, ranges, idxs)[..|idxs| - 1] == BlocksOf(normalize, docs, ranges, idxs[..|idxs| - 1])
  {
    hide StitchAll;
    var before := idxs[..|idxs| - 1];
    forall i | 0 <= i < |before| ensures BlockOf(normalize, docs, ranges, idxs, i) == BlockOf(normalize, docs, ranges, before, i) {
      assert before[..i + 1] == idxs[..i + 1] && before[..i] == idxs[..i];
    }
  }

  /** When every contributing shard has a range, the page map is these blocks in a row. */
  lemma {:induction false} StitchedBlocks(normalize: string -> string, docs: map<int, string>, ranges: map<int, (int, int)>, idxs: seq<int>)
    requires (forall j :: 0 <= j < |idxs| ==> idxs[j] in docs) && Ranged(normalize, docs, ranges, idxs)
    ensures StitchAll(normalize, docs, ranges, idxs).pages == Laid(BlocksOf(normalize, docs, ranges, idxs))
    decreases |idxs|
  {
    hide Contributed, ShardPages;
    if idxs == [] {
      StitchNone(normalize, docs, ranges);
    } else {
      hide StitchAll;
      RangedLast(normalize, docs, ranges, idxs);
      StitchedBlocks(normalize, docs, ranges, idxs[..|idxs| - 1]);
      LastContributes(normalize, docs, ranges, idxs);
      BlocksFront(normalize, docs, ranges, idxs);
    }
  }

  // ---- trimming the joined document -----------------------------------------

  function Trail(lines: seq<string>): (n: nat)
    ensures n <= |lines| && (forall i :: |lines| - n <= i < |lines| ==> Blank(lines[i])) && (n < |lines| ==> !Blank(lines[|lines| - 1 - n]))
  {
    if lines != [] && Blank(lines[|lines| - 1]) then
      var n := Trail(lines[..|lines| - 1]);
      assert forall i :: |lines| - 1 - n <= i < |lines| - 1 ==> lines[i] == lines[..|lines| - 1][i];
      1 + n
    else 0
  }

  predicate AllBlank(lines: seq<string>) {
    forall i :: 0 <= i < |lines| ==> Blank(lines[i])
  }

  /** The lines left when blank ones are dropped at both ends. */
  function Core(lines: seq<string>): seq<string> {
    if AllBlank(lines) then []
    else
      assert Lead(lines) < |lines| - Trail(lines) by {
        assert !Blank(lines[Lead(lines)]);
      }
      lines[Lead(lines)..|lines| - Trail(lines)]
  }

  /** The first line trimmed on its left, the last one on its right. */
  function TrimEnds(lines: seq<string>): (r: seq<string>)
    requires lines != []
    ensures |r| == |lines|
  {
    var a := [TrimLeft(lines[0])] + lines[1..];
    a[..|a| - 1] + [TrimRight(a[|a| - 1])]
  }

  lemma {:induction false} TrimLeftJoin(lines: seq<string>)
    requires !AllBlank(lines)
    ensures var n := Lead(lines);
            n < |lines| && TrimLeft(Join(lines)) == Join([TrimLeft(lines[n])] + lines[n + 1..])
  {
    hide TrimLeft, Join, Blank, Lead, AllBlank;
    NotAllLead(lines);
    if !Blank(lines[0]) {
      LeadInk(lines);
      TrimLeftInk(lines);
    } else {
      LeadStep(lines);
      FirstLine(lines);
      TrimLeftJoin(lines[1..]);
      DropOne(lines, Lead(lines[1..]));
    }
  }

  lemma NotAllLead(lines: seq<string>)
    requires !AllBlank(lines)
    ensures lines != [] && Lead(lines) < |lines| && (|lines| == 1 ==> !Blank(lines[0]))
  {
    hide Blank;
    var w :| 0 <= w < |lines| && !Blank(lines[w]);
  }

  lemma LeadInk(lines: seq<string>)
    requires lines != [] && !Blank(lines[0])
    ensures Lead(lines) == 0
  {
  }

  lemma LeadStep(lines: seq<string>)
    requires |lines| > 1 && Blank(lines[0]) && !AllBlank(lines)
    ensures Lead(lines) == 1 + Lead(lines[1..]) && !AllBlank(lines[1..])
  {
    hide Blank;
    var w :| 0 <= w < |lines| && !Blank(lines[w]);
    assert lines[1..][w - 1] == lines[w];
  }

  lemma DropOne(lines: seq<string>, n: nat)
    requires n < |lines| - 1
    ensures lines[1..][n] == lines[n + 1] && lines[1..][n + 1..] == lines[n + 2..]
  {
  }

  lemma TrimLeftInk(lines: seq<string>)
    requires lines != [] && !Blank(lines[0])
    ensures TrimLeft(Join(lines)) == Join([TrimLeft(lines[0])] + lines[1..])
  {
    hide TrimLeft, Join, Blank;
    JoinOne(TrimLeft(lines[0]));
    if |lines| == 1 {
      JoinOne(lines[0]);
      assert lines == [lines[0]] && [TrimLeft(lines[0])] + lines[1..] == [TrimLeft(lines[0])];
    } else {
      FirstLine(lines);
      JoinCons(TrimLeft(lines[0]), lines[1..]);
    }
  }

  lemma FirstLine(lines: seq<string>)
    requires |lines| > 1
    ensures TrimLeft(Join(lines)) == if Blank(lines[0]) then TrimLeft(Join(lines[1..])) else TrimLeft(lines[0]) + "\n" + Join(lines[1..])
  {
    var rest := "\n" + Join(lines[1..]);
    assert Join(lines) == lines[0] + rest;
    hide TrimLeft, Join;
    TrimLeftAppend(lines[0], rest);
    TrimLeftAppend("\n", Join(lines[1..]));
  }

  lemma {:induction false} TrimRightJoin(lines: seq<string>, t: nat)
    requires !AllBlank(lines) && t == Trail(lines)
    ensures var n := |lines| - 1 - t;
            0 <= n && TrimRight(Join(lines)) == Join(lines[..n] + [TrimRight(lines[n])])
    decreases |lines|
  {
    hide TrimRight, Join, Blank, Trail;
    NotAllTrail(lines);
    var m := |lines| - 1;
    if !Blank(lines[m]) {
      TrailInk(lines);
      TrimRightInk(lines);
    } else {
      TrailStep(lines);
      LastLine(lines);
      TrimRightJoin(lines[..m], t - 1);
      TrimRightBlank(lines, t - 1);
    }
  }

  lemma NotAllTrail(lines: seq<string>)
    requires !AllBlank(lines)
    ensures lines != [] && Trail(lines) < |lines| && (|lines| == 1 ==> !Blank(lines[0]))
  {
    hide Blank;
    var w :| 0 <= w < |lines| && !Blank(lines[w]);
  }

  lemma TrailInk(lines: seq<string>)
    requires lines != [] && !Blank(lines[|lines| - 1])
    ensures Trail(lines) == 0
  {
  }

  lemma TrimRightBlank(lines: seq<string>, t: nat)
    requires |lines| > 1 && t < |lines| - 1
    requires TrimRight(Join(lines)) == TrimRight(Join(lines[..|lines| - 1]))
    requires var front := lines[..|lines| - 1];
             var n := |front| - 1 - t;
             TrimRight(Join(front)) == Join(front[..n] + [TrimRight(front[n])])
    ensures var n := |lines| - 2 - t;
            TrimRight(Join(lines)) == Join(lines[..n] + [TrimRight(lines[n])])
  {
    hide TrimRight, Join;
    TakeTwice(lines, |lines| - 1, |lines| - 2 - t);
  }

  lemma TrimRightInk(lines: seq<string>)
    requires lines != [] && !Blank(lines[|lines| - 1])
    ensures var n := |lines| - 1;
            TrimRight(Join(lines)) == Join(lines[..n] + [TrimRight(lines[n])])
  {
    var m := |lines| - 1;
    JoinOne(TrimRight(lines[m]));
    if m == 0 {
      JoinOne(lines[0]);
      assert lines == [lines[0]] && lines[..0] + [TrimRight(lines[0])] == [TrimRight(lines[0])];
    } else {
      LastLine(lines);
      hide TrimRight, Join, Blank;
      JoinAppend(lines[..m], [TrimRight(lines[m])]);
    }
  }

  lemma TrailStep(lines: seq<string>)
    requires |lines| > 1 && Blank(lines[|lines| - 1]) && !AllBlank(lines)
    ensures Trail(lines) == 1 + Trail(lines[..|lines| - 1]) && !AllBlank(lines[..|lines| - 1])
  {
    hide Blank;
    var w :| 0 <= w < |lines| && !Blank(lines[w]);
    assert lines[..|lines| - 1][w] == lines[w];
  }

  lemma LastLine(lines: seq<string>)
    requires |lines| > 1
    ensures var m := |lines| - 1;
            TrimRight(Join(lines)) == if Blank(lines[m]) then TrimRight(Join(lines[..m])) else Join(lines[..m]) + "\n" + TrimRight(lines[m])
  {
    hide TrimRight, Join;
    var m := |lines| - 1;
    var front, last := lines[..m], lines[m];
    assert lines == front + [last];
    JoinAppend(front, [last]);
    JoinOne(last);
    TrimRightAppend(Join(front) + "\n", last);
    TrimRightAppend(Join(front), "\n");
  }

  lemma {:induction false} BlankJoin(lines: seq<string>)
    requires AllBlank(lines)
    ensures Blank(Join(lines))
  {
    if |lines| <= 1 {
    } else {
      BlankJoin(lines[1..]);
    }
  }

  /** Trimming the joined lines drops the blank ones at both ends and trims the two lines left at the ends. */
  lemma TrimSpaceJoin(lines: seq<string>)
    ensures TrimSpace(Join(lines)) == if AllBlank(lines) then "" else Join(TrimEnds(Core(lines)))
  {
    if AllBlank(lines) {
      BlankJoin(lines);
      TrimLeftAppend(Join(lines), "");
    } else {
      TrimSpaceCore(lines);
    }
  }

  lemma TrimSpaceCore(lines: seq<string>)
    requires !AllBlank(lines)
    ensures TrimSpace(Join(lines)) == Join(TrimEnds(Core(lines)))
  {
    hide Join, TrimLeft, TrimRight, TrimEnds, Blank, AllBlank, Lead, Trail;
    var n, t := Lead(lines), Trail(lines);
    TrimLeftJoin(lines);
    CoreSize(lines);
    var left := [TrimLeft(lines[n])] + lines[n + 1..];
    assert left[0] == TrimLeft(lines[n]) && left[1..] == lines[n + 1..];
    StillNotBlank(lines[n]);
    LeftTrail(lines, left);
    TrimRightJoin(left, t);
    CoreEnds(lines, n, t, left);
  }

  lemma CoreEnds(lines: seq<string>, n: nat, t: nat, left: seq<string>)
    requires n < |lines| - t && left == [TrimLeft(lines[n])] + lines[n + 1..]
    ensures var k := |left| - 1 - t;
            0 <= k < |left| && left[..k] + [TrimRight(left[k])] == TrimEnds(lines[n..|lines| - t])
  {
    hide TrimLeft, TrimRight;
    SliceTail(lines, n, t, TrimLeft(lines[n]));
    var core, k := lines[n..|lines| - t], |left| - 1 - t;
    assert core[0] == lines[n];
    assert left[..k + 1][..k] == left[..k];
  }

  lemma SliceTail(lines: seq<string>, n: nat, t: nat, x: string)
    requires n < |lines| - t
    ensures ([x] + lines[n + 1..])[..|lines| - n - t] == [x] + lines[n..|lines| - t][1..]
  {
  }

  lemma {:induction false} StillNotBlank(s: string)
    requires !Blank(s)
    ensures !Blank(TrimLeft(s))
  {
    if !IsSpace(s[0]) {
    } else {
      var w :| 0 <= w < |s| && !IsSpace(s[w]);
      assert s[1..][w - 1] == s[w];
      StillNotBlank(s[1..]);
    }
  }

  lemma LeftTrail(lines: seq<string>, left: seq<string>)
    requires !AllBlank(lines)
    requires var n := Lead(lines); n < |lines| && |left| == |lines| - n && !Blank(left[0]) && left[1..] == lines[n + 1..]
    ensures Trail(left) == Trail(lines) && !AllBlank(left)
  {
    hide Blank, Lead, Trail;
    var n, t := Lead(lines), Trail(lines);
    assert !Blank(lines[n]);
    forall i | 1 <= i < |left| ensures left[i] == lines[n + i] {
      assert left[i] == left[1..][i - 1] && lines[n + i] == lines[n + 1..][i - 1];
    }
    TrailIs(left, t);
  }

  lemma {:induction false} TrailIs(lines: seq<string>, t: nat)
    requires t < |lines| && (forall i :: |lines| - t <= i < |lines| ==> Blank(lines[i])) && !Blank(lines[|lines| - 1 - t])
    ensures Trail(lines) == t
  {
    if t == 0 {
    } else {
      TrailIs(lines[..|lines| - 1], t - 1);
    }
  }

  // ---- alignPages -----------------------------------------------------------

  /** The stitched document for the lines. */
  function Markdown(lines: seq<string>): string {
    TrimSpace(Join(lines)) + "\n"
  }

  /** The pages of the lines that survive trimming; none when they cannot be told. */
  function Aligned(lines: seq<string>, pages: seq<int>): seq<int> {
    if |pages| == |lines| && !AllBlank(lines) then
      assert Lead(lines) <= |lines| - Trail(lines) by { assert !Blank(lines[Lead(lines)]); }
      pages[Lead(lines)..|lines| - Trail(lines)]
    else []
  }

  lemma {:induction false} NewlinesAppend(a: string, b: string)
    ensures Newlines(a + b) == Newlines(a) + Newlines(b)
    decreases |b|
  {
    if b == "" {
      assert a + b == a;
    } else {
      assert (a + b)[..|a + b| - 1] == a + b[..|b| - 1];
      NewlinesAppend(a, b[..|b| - 1]);
    }
  }

  lemma {:induction false} NoNewlines(s: string)
    requires NoNewline(s)
    ensures Newlines(s) == 0
    decreases |s|
  {
    if s == "" {
    } else {
      NoNewlines(s[..|s| - 1]);
    }
  }

  lemma {:induction false} JoinNewlines(lines: seq<string>)
    requires AllLines(lines)
    ensures Newlines(Join(lines)) == |lines| - 1
  {
    NoNewlines(lines[0]);
    if |lines| <= 1 {
    } else {
      JoinNewlines(lines[1..]);
      NewlinesAppend(lines[0] + "\n", Join(lines[1..]));
      NewlinesAppend(lines[0], "\n");
      assert "\n"[..0] == "";
    }
  }

  lemma TrimEndsOneLiners(lines: seq<string>)
    requires AllLines(lines)
    ensures AllLines(TrimEnds(lines))
  {
    var a := [TrimLeft(lines[0])] + lines[1..];
    TrimLeftSuffix(lines[0]);
    assert NoNewline(a[0]);
    assert OneLiners(a);
    TrimRightPrefix(a[|a| - 1]);
  }

  /** The stitched text is the surviving lines, each ended by one newline. */
  lemma MarkdownLines(lines: seq<string>)
    requires OneLiners(lines)
    ensures AllBlank(lines) ==> Markdown(lines) == "\n"
    ensures !AllBlank(lines) ==>
              && Core(lines) != [] && Split(TrimSpace(Join(lines))) == TrimEnds(Core(lines))
              && Newlines(Markdown(lines)) == |Core(lines)| == LineCount(Markdown(lines))
  {
    hide Join, TrimSpace;
    TrimSpaceJoin(lines);
    if !AllBlank(lines) {
      var core := Core(lines);
      assert core != [] && AllLines(core);
      TrimEndsOneLiners(core);
      SplitJoin(TrimEnds(core));
      JoinNewlines(TrimEnds(core));
      var body := Join(TrimEnds(core));
      NewlinesAppend(body, "\n");
      assert "\n"[..0] == "" && (body + "\n")[..|body + "\n"| - 1] == body;
    }
  }

  lemma CoreSize(lines: seq<string>)
    ensures AllBlank(lines) <==> Lead(lines) == |lines|
    ensures !AllBlank(lines) ==> Lead(lines) + Trail(lines) < |lines| && |Core(lines)| == |lines| - Lead(lines) - Trail(lines)
  {
    if Lead(lines) < |lines| {
      assert !Blank(lines[Lead(lines)]);
    }
  }

  method AlignPages(markdown: string, pageOfLine: seq<int>, lines: seq<string>) returns (out: seq<int>)
    requires OneLiners(lines) && markdown == Markdown(lines)
    ensures out == Aligned(lines, pageOfLine)
  {
    hide Markdown, Join, TrimEnds, Core, AllBlank, Blank, Lead, Trail, Split, LineCount;
    MarkdownLines(lines);
    if |pageOfLine| == 0 {
      return [];
    }
    out := pageOfLine;
    var emitted := |lines|;
    var lead := LeadingBlank(lines);
    if lead > 0 && lead <= |out| {
      out := out[lead..];
      emitted := emitted - lead;
    }
    var trail := TrailingBlank(lines, lead);
    if trail > 0 && trail <= |out| {
      out := out[..|out| - trail];
      emitted := emitted - trail;
    }
    assert |out| - emitted == |pageOfLine| - |lines|;
    assert Newlines("\n") == 1 by { assert "\n"[..0] == ""; }
    CoreSize(lines);
    if |out| != emitted || |out| != Newlines(markdown) {
      return [];
    }
  }

  method LeadingBlank(lines: seq<string>) returns (lead: nat)
    ensures lead == Lead(lines)
  {
    lead := 0;
    while lead < |lines| && Blank(lines[lead])
      invariant lead <= Lead(lines)
    {
      lead := lead + 1;
    }
  }

  method TrailingBlank(lines: seq<string>, lead: nat) returns (trail: nat)
    requires lead <= |lines|
    ensures trail == if Trail(lines) <= |lines| - lead then Trail(lines) else |lines| - lead
  {
    trail := 0;
    while trail < |lines| - lead && Blank(lines[|lines| - 1 - trail])
      invariant trail <= Trail(lines) && trail <= |lines| - lead
    {
      trail := trail + 1;
    }
  }

  // ---- what each shard contributes ------------------------------------------

  /** The lines of a payload, but for a final newline. */
  predicate LinesOf(md: string, doc: seq<string>) {
    AllLines(doc) && Join(doc) == if md != "" && md[|md| - 1] == '\n' then md[..|md| - 1] else md
  }

  predicate FirstHeadingAt(lines: seq<string>, i: int) {
    0 <= i < |lines| && HeadingOf(lines[i]).Some? && forall k :: 0 <= k < i ==> HeadingOf(lines[k]).None?
  }

  predicate LastHeadingAt(lines: seq<string>, i: int) {
    0 <= i < |lines| && HeadingOf(lines[i]).Some? && forall k :: i < k < |lines| ==> HeadingOf(lines[k]).None?
  }

  /** The shard's first heading is the last one before it. */
  ghost predicate RepeatsHeading(before: seq<string>, doc: seq<string>) {
    exists i, j :: LastHeadingAt(before, i) && FirstHeadingAt(doc, j) && HeadingOf(before[i]) == HeadingOf(doc[j])
  }

  /** All but the first line and the blank lines right under it. */
  predicate LosesFirst(doc: seq<string>, kept: seq<string>) {
    && |kept| < |doc| && kept == doc[|doc| - |kept|..]
    && (forall i :: 1 <= i < |doc| - |kept| ==> Blank(doc[i])) && (kept != [] ==> !Blank(kept[0]))
  }

  /** What a payload adds to the lines before it: everything, unless it repeats the heading. */
  ghost predicate Contributes(before: seq<string>, md: string, kept: seq<string>) {
    if md == "" then kept == []
    else exists doc :: LinesOf(md, doc) && if RepeatsHeading(before, doc) then LosesFirst(doc, kept) else kept == doc
  }

  /** page is that of line l of n, when they are spread evenly over the range; fractions are cut off. */
  predicate SpreadPage(range: (int, int), n: nat, l: int, page: int) {
    var d, share := page - range.0, l * (range.1 - range.0 + 1);
    if share >= 0 then d * n <= share < d * n + n else d * n - n < share <= d * n
  }

  /** The page of each contributed line, for a shard with a range. */
  predicate SpreadOver(range: Option<(int, int)>, n: nat, pages: seq<int>) {
    if range.None? then pages == []
    else |pages| == n && forall l :: 0 <= l < n ==> SpreadPage(range.value, n, l, pages[l])
  }

  /** The k-th shard in order contributed these lines and pages after those of the shards before it. */
  ghost predicate ShardStitched(md: string, range: Option<(int, int)>, before: seq<string>, kept: seq<string>, pages: seq<int>) {
    Contributes(before, md, kept) && SpreadOver(range, |kept|, pages)
  }

  /** lines and pages are what the shards contribute, one after the other in the given order. */
  ghost predicate StitchedFrom(normalize: string -> string, docs: map<int, string>, ranges: map<int, (int, int)>, order: seq<int>,
                               kept: seq<seq<string>>, pages: seq<seq<int>>)
    requires forall i :: 0 <= i < |order| ==> order[i] in docs
  {
    && |kept| == |pages| == |order|
    && forall k :: 0 <= k < |order| ==>
         ShardStitched(normalize(docs[order[k]]), RangeOf(ranges, order[k]), Flatten(kept[..k]), kept[k], pages[k])
  }

  lemma {:induction false} LastHeadingIs(lines: seq<string>)
    ensures LastHeading(lines).None? ==> forall k :: 0 <= k < |lines| ==> HeadingOf(lines[k]).None?
    ensures LastHeading(lines).Some? ==> exists i :: LastHeadingAt(lines, i) && HeadingOf(lines[i]) == LastHeading(lines)
  {
    hide HeadingOf;
    if lines == [] {
    } else if HeadingOf(lines[|lines| - 1]).Some? {
      assert LastHeadingAt(lines, |lines| - 1);
    } else {
      LastHeadingIs(lines[..|lines| - 1]);
      if LastHeading(lines).Some? {
        var i :| LastHeadingAt(lines[..|lines| - 1], i) && HeadingOf(lines[..|lines| - 1][i]) == LastHeading(lines);
        assert LastHeadingAt(lines, i);
      }
    }
  }

  lemma FirstHeadingIs(lines: seq<string>)
    ensures FirstHeading(lines).Some? ==> exists j :: FirstHeadingAt(lines, j)
    ensures forall j :: FirstHeadingAt(lines, j) ==> HeadingOf(lines[j]) == FirstHeading(lines)
  {
    var first := FirstHeading(lines);
    assert IsFirstHeading(lines, first);
    hide HeadingOf, FirstHeading;
    if first.Some? {
      var w :| 0 <= w < |lines| && HeadingOf(lines[w]) == first && forall k :: 0 <= k < w ==> HeadingOf(lines[k]).None?;
      assert FirstHeadingAt(lines, w);
      forall j | FirstHeadingAt(lines, j) ensures j == w {
      }
    }
  }

  lemma LastHeadingOnly(lines: seq<string>, i: int, j: int)
    requires LastHeadingAt(lines, i) && LastHeadingAt(lines, j)
    ensures i == j
  {
    hide HeadingOf;
  }

  lemma RepeatsIs(before: seq<string>, doc: seq<string>)
    ensures RepeatsHeading(before, doc) <==> FirstHeading(doc).Some? && FirstHeading(doc) == LastHeading(before)
  {
    LastHeadingIs(before);
    FirstHeadingIs(doc);
    forall i, j | LastHeadingAt(before, i) && LastHeadingAt(before, j) ensures i == j {
      LastHeadingOnly(before, i, j);
    }
    hide HeadingOf, FirstHeading, LastHeading, FirstHeadingAt, LastHeadingAt, IsFirstHeading;
    if RepeatsHeading(before, doc) {
      var i, j :| LastHeadingAt(before, i) && FirstHeadingAt(doc, j) && HeadingOf(before[i]) == HeadingOf(doc[j]);
      HeadingThere(before, i);
    }
    if FirstHeading(doc).Some? && FirstHeading(doc) == LastHeading(before) {
      var i :| LastHeadingAt(before, i) && HeadingOf(before[i]) == LastHeading(before);
      var j :| FirstHeadingAt(doc, j);
      assert HeadingOf(before[i]) == HeadingOf(doc[j]);
    }
  }

  lemma HeadingThere(lines: seq<string>, i: int)
    requires LastHeadingAt(lines, i)
    ensures LastHeading(lines).Some?
  {
    hide HeadingOf;
    LastHeadingIs(lines);
  }

  lemma DocLinesAre(md: string)
    requires md != ""
    ensures LinesOf(md, DocLines(md))
  {
    hide Join, Split;
    JoinSplit(if md[|md| - 1] == '\n' then md[..|md| - 1] else md);
  }

  lemma DedupedContributes(before: seq<string>, md: string)
    requires md != ""
    ensures Contributes(before, md, Deduped(before, DocLines(md)))
  {
    hide RepeatsHeading, LinesOf, DocLines, FirstHeading, IsFirstHeading, LastHeading, HeadingOf, Blank;
    var doc := DocLines(md);
    DocLinesAre(md);
    RepeatsIs(before, doc);
    LeadShift(doc);
    if RepeatsHeading(before, doc) {
      SomeHeading(before, doc);
      var n := Lead(doc[1..]);
      DedupedIs(before, doc);
      assert doc[1..][n..] == doc[1 + n..];
      assert n < |doc[1..]| ==> doc[1..][n] == doc[1 + n];
      assert LosesFirst(doc, doc[1 + n..]);
    }
  }

  lemma SomeHeading(before: seq<string>, doc: seq<string>)
    requires RepeatsHeading(before, doc)
    ensures before != [] && doc != []
  {
  }

  lemma SpreadIs(range: (int, int), n: nat, l: int)
    requires n > 0
    ensures SpreadPage(range, n, l, PageAt(range, n, l))
  {
    var a := l * Span(range);
    if a >= 0 {
      assert a == a / n * n + a % n;
    } else {
      assert -a == (-a) / n * n + (-a) % n;
      assert (-((-a) / n)) * n == -((-a) / n * n);
    }
  }

  lemma {:induction false} StitchGroups(normalize: string -> string, docs: map<int, string>, ranges: map<int, (int, int)>, order: seq<int>)
    returns (kept: seq<seq<string>>, pages: seq<seq<int>>)
    requires forall i :: 0 <= i < |order| ==> order[i] in docs
    ensures StitchedFrom(normalize, docs, ranges, order, kept, pages)
    ensures StitchAll(normalize, docs, ranges, order) == Acc(Flatten(kept), Flatten(pages))
    decreases |order|
  {
    hide Deduped, DocLines, ShardPages, ShardStitched;
    if order == [] {
      kept, pages := [], [];
    } else {
      var n := |order| - 1;
      var front := order[..n];
      kept, pages := StitchGroups(normalize, docs, ranges, front);
      var acc := StitchAll(normalize, docs, ranges, front);
      var md, range := normalize(docs[order[n]]), RangeOf(ranges, order[n]);
      var doc, entries := LastShard(acc, md, range);
      FlattenSnoc(kept, doc);
      FlattenSnoc(pages, entries);
      var kept', pages' := kept + [doc], pages + [entries];
      forall k | 0 <= k < |order|
        ensures ShardStitched(normalize(docs[order[k]]), RangeOf(ranges, order[k]), Flatten(kept'[..k]), kept'[k], pages'[k])
      {
        assert kept'[..k] == kept[..k];
        assert k == n ==> kept[..k] == kept;
        assert k < n ==> front[k] == order[k];
      }
      kept, pages := kept', pages';
    }
  }

  lemma LastShard(acc: Acc, md: string, range: Option<(int, int)>) returns (kept: seq<string>, pages: seq<int>)
    ensures ShardStitched(md, range, acc.lines, kept, pages) && StitchShard(acc, md, range) == Acc(acc.lines + kept, acc.pages + pages)
  {
    hide Deduped, DocLines, Contributes, SpreadPage, PageAt;
    if md == "" {
      kept := [];
      NothingContributed(acc.lines);
    } else {
      kept := Deduped(acc.lines, DocLines(md));
      DedupedContributes(acc.lines, md);
    }
    pages := if range.Some? then ShardPages(range.value, |kept|) else [];
    if range.Some? {
      forall l | 0 <= l < |kept| ensures SpreadPage(range.value, |kept|, l, pages[l]) {
        SpreadIs(range.value, |kept|, l);
      }
    }
  }

  lemma NothingContributed(before: seq<string>)
    ensures Contributes(before, "", [])
  {
  }

  // ---- Stitch ---------------------------------------------------------------

  /** Drops a duplicated boundary heading and the blank line under it, if any. */
  method Dedupe(lines: seq<string>, doc: seq<string>) returns (docLines: seq<string>)
    ensures docLines == Deduped(lines, doc)
  {
    docLines := doc;
    if |lines| > 0 && |docLines| > 0 {
      var prevLast, first := LastHeading(lines), FirstHeading(docLines);
      if prevLast.Some? && first.Some? && first.value == prevLast.value {
        docLines := docLines[1..];
        ghost var rest := docLines;
        while |docLines| > 0 && Blank(docLines[0])
          invariant |docLines| <= |rest| && docLines[Lead(docLines)..] == rest[Lead(rest)..]
        {
          assert docLines[1..][Lead(docLines[1..])..] == docLines[1 + Lead(docLines[1..])..];
          docLines := docLines[1..];
        }
      }
    }
  }

  /** The loop that fills a shard's page entries. */
  method PageEntries(range: (int, int), n: nat) returns (pages: seq<int>)
    requires n > 0
    ensures pages == ShardPages(range, n)
  {
    var span := range.1 - range.0 + 1;
    pages := [];
    for local := 0 to n
      invariant pages == ShardPages(range, n)[..local]
    {
      pages := pages + [range.0 + Quotient(local * span, n)];
    }
  }

  method Stitch(normalize: string -> string, docs: map<int, string>, ranges: map<int, (int, int)>)
    returns (markdown: string, pages: seq<int>, ghost order: seq<int>, ghost kept: seq<seq<string>>, ghost spread: seq<seq<int>>)
    ensures Ascending(order) && (forall k :: k in order <==> k in docs) && forall i :: 0 <= i < |order| ==> order[i] in docs
    ensures StitchedFrom(normalize, docs, ranges, order, kept, spread)
    ensures markdown == TrimSpace(Join(Flatten(kept))) + "\n" && pages == Aligned(Flatten(kept), Flatten(spread))
    ensures var acc := StitchAll(normalize, docs, ranges, order);
            markdown == Markdown(acc.lines) && pages == Aligned(acc.lines, acc.pages)
  {
    hide Markdown, Aligned, Deduped, ShardPages, DocLines, Ascending, StitchAll, StitchedFrom, TrimSpace, Join, Flatten;
    var idxs := SortedKeys(docs.Keys);
    order := idxs;
    forall i | 0 <= i < |idxs| ensures idxs[i] in docs {
      assert idxs[i] in idxs;
    }
    StitchNone(normalize, docs, ranges);
    var lines: seq<string>, pageOfLine: seq<int> := [], [];
    assert idxs[..0] == [];
    for i := 0 to |idxs|
      invariant Acc(lines, pageOfLine) == StitchAll(normalize, docs, ranges, idxs[..i])
    {
      var idx := idxs[i];
      StitchNext(normalize, docs, ranges, idxs, i);
      var md := normalize(docs[idx]);
      if md != "" {
        var docLines := DocLines(md);
        docLines := Dedupe(lines, docLines);
        lines := lines + docLines;
        if idx in ranges {
          if |docLines| > 0 {
            var entries := PageEntries(ranges[idx], |docLines|);
            pageOfLine := pageOfLine + entries;
          } else {
            assert pageOfLine + ShardPages(ranges[idx], 0) == pageOfLine;
          }
        } else {
          assert pageOfLine + [] == pageOfLine;
        }
      }
    }
    assert idxs[..|idxs|] == idxs;
    StitchedOneLiners(normalize, docs, ranges, idxs);
    kept, spread := StitchGroups(normalize, docs, ranges, idxs);
    markdown := TrimSpace(Join(lines)) + "\n";
    MarkdownIs(lines);
    pages := AlignPages(markdown, pageOfLine, lines);
  }

  lemma MarkdownIs(lines: seq<string>)
    ensures Markdown(lines) == TrimSpace(Join(lines)) + "\n"
  {
  }

  /** The map is dropped exactly when a contributing shard has no range or nothing but blanks is left. */
  lemma PagesAccepted(normalize: string -> string, docs: map<int, string>, ranges: map<int, (int, int)>, order: seq<int>)
    requires forall j :: 0 <= j < |order| ==> order[j] in docs
    ensures var acc := StitchAll(normalize, docs, ranges, order);
            var md, pages := Markdown(acc.lines), Aligned(acc.lines, acc.pages);
            && (pages != [] <==> Ranged(normalize, docs, ranges, order) && !AllBlank(acc.lines))
            && (pages != [] ==> |pages| == Newlines(md) == LineCount(md))
  {
    hide StitchAll, Markdown, Ranged;
    var acc := StitchAll(normalize, docs, ranges, order);
    PagePerLine(normalize, docs, ranges, order);
    StitchedOneLiners(normalize, docs, ranges, order);
    MarkdownLines(acc.lines);
    CoreSize(acc.lines);
  }

  /**
   * For every input, also with ranges that run backwards, the returned pages never decrease
   * exactly when they are dropped or what trimming left of each shard is in order.
   */
  lemma PagesOrderedExactly(normalize: string -> string, docs: map<int, string>, ranges: map<int, (int, int)>, order: seq<int>)
    requires forall j :: 0 <= j < |order| ==> order[j] in docs
    ensures var lines := StitchAll(normalize, docs, ranges, order).lines;
            Nondecreasing(Aligned(lines, StitchAll(normalize, docs, ranges, order).pages)) <==>
            (Ranged(normalize, docs, ranges, order) && !AllBlank(lines) ==>
               Lead(lines) <= |lines| - Trail(lines)
               && InOrder(BlocksOf(normalize, docs, ranges, order), Lead(lines), |lines| - Trail(lines)))
  {
    hide StitchAll, Ranged, BlocksOf, InOrder, Lead, Trail, Blank;
    var acc := StitchAll(normalize, docs, ranges, order);
    PagePerLine(normalize, docs, ranges, order);
    if Ranged(normalize, docs, ranges, order) && !AllBlank(acc.lines) {
      StitchedBlocks(normalize, docs, ranges, order);
      AlignedClips(acc.lines, acc.pages);
      ClippedExactly(BlocksOf(normalize, docs, ranges, order), Lead(acc.lines), |acc.lines| - Trail(acc.lines));
    }
  }

  lemma AlignedClips(lines: seq<string>, pages: seq<int>)
    requires |pages| == |lines| && !AllBlank(lines)
    ensures Lead(lines) <= |lines| - Trail(lines) && Aligned(lines, pages) == Clip(pages, Lead(lines), |lines| - Trail(lines))
  {
    hide Lead, Trail, Blank;
    CoreSize(lines);
  }

  /** Line i of the document is stitched line Lead + i, and so is its page. */
  lemma PagesFollowLines(lines: seq<string>, pages: seq<int>, i: nat)
    requires OneLiners(lines) && i < |Aligned(lines, pages)|
    ensures var j := Lead(lines) + i;
            var out := Split(TrimSpace(Join(lines)));
            && j < |lines| == |pages| && |out| == |Aligned(lines, pages)|
            && Aligned(lines, pages)[i] == pages[j]
            && TrimSpace(out[i]) == TrimSpace(lines[j])
            && (0 < i < |out| - 1 ==> out[i] == lines[j])
  {
    hide Join, TrimSpace, TrimEnds, Split, Lead, Trail, Blank, Markdown, Newlines, Aligned, Core, AllBlank;
    AlignedAt(lines, pages, i);
    MarkdownLines(lines);
    CoreAt(lines, i);
    TrimEndsTrim(Core(lines), i);
  }

  lemma CoreAt(lines: seq<string>, i: nat)
    requires i < |Core(lines)|
    ensures Lead(lines) + i < |lines| && Core(lines)[i] == lines[Lead(lines) + i]
  {
    hide Lead, Trail, Blank, AllBlank;
    CoreSize(lines);
  }

  lemma AlignedAt(lines: seq<string>, pages: seq<int>, i: nat)
    requires i < |Aligned(lines, pages)|
    ensures !AllBlank(lines) && |lines| == |pages| && |Aligned(lines, pages)| == |Core(lines)| && Lead(lines) + i < |pages|
    ensures Aligned(lines, pages)[i] == pages[Lead(lines) + i]
  {
    hide Lead, Trail, Blank, AllBlank;
    CoreSize(lines);
  }

  lemma TrimEndsTrim(lines: seq<string>, i: nat)
    requires i < |lines|
    ensures TrimSpace(TrimEnds(lines)[i]) == TrimSpace(lines[i])
    ensures 0 < i < |lines| - 1 ==> TrimEnds(lines)[i] == lines[i]
  {
    var s := lines[i];
    TrimLeftTwice(s);
    TrimRightKeepsLeft(s);
    TrimRightKeepsLeft(TrimLeft(s));
    TrimRightTwice(TrimLeft(s));
  }

  lemma {:induction false} TrimLeftTwice(s: string)
    ensures TrimLeft(TrimLeft(s)) == TrimLeft(s)
  {
    if s == "" || !IsSpace(s[0]) {
    } else {
      TrimLeftTwice(s[1..]);
    }
  }

  lemma {:induction false} TrimRightTwice(s: string)
    ensures TrimRight(TrimRight(s)) == TrimRight(s)
    decreases |s|
  {
    if s == "" || !IsSpace(s[|s| - 1]) {
    } else {
      TrimRightTwice(s[..|s| - 1]);
    }
  }

  /** Trimming the two ends commutes. */
  lemma TrimRightKeepsLeft(s: string)
    ensures TrimLeft(TrimRight(s)) == TrimRight(TrimLeft(s))
  {
    TrimRightPrefix(s);
    var k :| 0 <= k <= |s| && TrimRight(s) == s[..k] && Blank(s[k..]);
    assert s == s[..k] + s[k..];
    TrimLeftAppend(s[..k], s[k..]);
    if Blank(s[..k]) {
      TrimLeftAppend(s[k..], "");
      assert s[k..] + "" == s[k..];
    } else {
      TrimRightAppend(TrimLeft(s[..k]), s[k..]);
      TrimRightTwice(s);
      LeftOfTrimmed(s[..k]);
    }
  }

  lemma LeftOfTrimmed(s: string)
    requires TrimRight(s) == s
    ensures TrimRight(TrimLeft(s)) == TrimLeft(s)
  {
    TrimLeftSuffix(s);
    var k :| 0 <= k <= |s| && TrimLeft(s) == s[k..] && Blank(s[..k]);
    if k < |s| && IsSpace(s[|s| - 1]) {
      TrimRightPrefix(s[..|s| - 1]);
    }
  }

  /** The pages of every chunk of a stitched document, when ranges are ordered by index. */
  lemma ChunkPagesOrdered(normalize: string -> string, docs: map<int, string>, ranges: map<int, (int, int)>, order: seq<int>,
                          start: int, end: int)
    requires (forall j :: 0 <= j < |order| ==> order[j] in docs) && Following(ranges, order)
    requires 0 <= start
    ensures var acc := StitchAll(normalize, docs, ranges, order);
            var md, pages := Markdown(acc.lines), Aligned(acc.lines, acc.pages);
            && Nondecreasing(pages) && FromRanges(ranges, order, pages)
            && (PagesOf(md, pages, start, end).Some? <==> Ranged(normalize, docs, ranges, order) && !AllBlank(acc.lines))
            && (PagesOf(md, pages, start, end).Some? ==>
                  var r := PagesOf(md, pages, start, end).value;
                  r.0 <= r.1 && OfSomeRange(ranges, order, r.0) && OfSomeRange(ranges, order, r.1))
  {
    hide StitchAll, Markdown, Ranged, OfSomeRange, LineCount;
    var acc := StitchAll(normalize, docs, ranges, order);
    var md, pages := Markdown(acc.lines), Aligned(acc.lines, acc.pages);
    PagesAccepted(normalize, docs, ranges, order);
    StitchedPagesOrdered(normalize, docs, ranges, order);
    assert forall k :: 0 <= k < |pages| ==> pages[k] == acc.pages[Lead(acc.lines) + k];
    MarkdownNotEmpty(acc.lines);
    if pages != [] {
      var last := if end <= start then start else end - 1;
      LineIndexMonotone(md, start, last);
    }
  }

  lemma MarkdownNotEmpty(lines: seq<string>)
    ensures Markdown(lines) != ""
  {
  }

  // ---- which ranges keep pages in order, whatever the shards hold ---------------

  /** What Stitch finds as the order of the documents. */
  ghost predicate IsOrderOf(docs: map<int, string>, order: seq<int>) {
    Ascending(order) && (forall k :: k in order <==> k in docs) && forall i :: 0 <= i < |order| ==> order[i] in docs
  }

  /** Plain markdown payloads, which are stitched as they are. */
  function Plain(md: string): string { md }

  /** Whatever the shards hold, the pages that Stitch returns never decrease. */
  ghost predicate AlwaysOrdered(ranges: map<int, (int, int)>, order: seq<int>) {
    forall docs: map<int, string> {:trigger StitchAll(Plain, docs, ranges, order)} | IsOrderOf(docs, order) ::
      Nondecreasing(Aligned(StitchAll(Plain, docs, ranges, order).lines, StitchAll(Plain, docs, ranges, order).pages))
  }

  /** Shard i has n lines, shard j one if there is such a shard, and the others nothing. */
  function TwoShards(order: seq<int>, i: nat, n: nat, j: nat): map<int, string>
    requires i < j <= |order| && n > 0
  {
    map k | k in order :: if k == order[i] then Join(Exes(n)) else if j < |order| && k == order[j] then "x" else ""
  }

  function Exes(n: nat): (ls: seq<string>)
    ensures |ls| == n && OneLiners(ls)
  {
    seq(n, _ => "x")
  }

  lemma ExesLines(n: nat)
    requires n > 0
    ensures Join(Exes(n)) != "" && DocLines(Join(Exes(n))) == Exes(n)
    decreases n
  {
    SplitJoin(Exes(n));
    LastExe(n);
  }

  lemma {:induction false} LastExe(n: nat)
    requires n > 0
    ensures var md := Join(Exes(n)); md != "" && md[|md| - 1] == 'x'
  {
    if n == 1 {
      assert Exes(1) == ["x"];
    } else {
      assert Exes(n)[1..] == Exes(n - 1);
      LastExe(n - 1);
    }
  }

  lemma {:induction false} ExesNoHeading(n: nat)
    ensures FirstHeading(Exes(n)).None?
  {
    hide IsFirstHeading;
    if n == 0 {
    } else {
      assert TrimLeft("x") == "x" && TrimRight("x") == "x";
      assert Exes(n)[1..] == Exes(n - 1);
      ExesNoHeading(n - 1);
    }
  }

  lemma ExesKept(before: seq<string>, n: nat)
    ensures Deduped(before, Exes(n)) == Exes(n)
  {
    ExesNoHeading(n);
  }

  /** The stitch of these two shards, order[..m] being done. */
  function TwoStitched(ranges: map<int, (int, int)>, order: seq<int>, i: nat, n: nat, j: nat, m: nat): Acc
    requires i < j <= |order| && order[i] in ranges && (j < |order| ==> order[j] in ranges) && m <= |order|
  {
    if m <= i then Acc([], [])
    else if m <= j then Acc(Exes(n), ShardPages(ranges[order[i]], n))
    else Acc(Exes(n) + Exes(1), ShardPages(ranges[order[i]], n) + ShardPages(ranges[order[j]], 1))
  }

  lemma {:induction false} StitchesTwo(ranges: map<int, (int, int)>, order: seq<int>, i: nat, n: nat, j: nat, m: nat)
    requires i < j <= |order| && n > 0 && m <= |order| && Ascending(order) && order[i] in ranges && (j < |order| ==> order[j] in ranges)
    ensures forall k :: 0 <= k < m ==> order[..m][k] in TwoShards(order, i, n, j)
    ensures StitchAll(Plain, TwoShards(order, i, n, j), ranges, order[..m]) == TwoStitched(ranges, order, i, n, j, m)
  {
    hide Join, DocLines, Deduped, ShardPages, Exes, TwoShards, Ascending;
    var docs := TwoShards(order, i, n, j);
    TwoShardsAt(order, i, n, j);
    if m == 0 {
      StitchNone(Plain, docs, ranges);
    } else {
      hide StitchAll;
      StitchesTwo(ranges, order, i, n, j, m - 1);
      StitchNext(Plain, docs, ranges, order, m - 1);
      ExesLines(n);
      ExesLines(1);
      OneExe();
      var acc := TwoStitched(ranges, order, i, n, j, m - 1);
      ExesKept(acc.lines, n);
      ExesKept(acc.lines, 1);
      assert [] + Exes(n) == Exes(n) && [] + ShardPages(ranges[order[i]], n) == ShardPages(ranges[order[i]], n);
    }
  }

  lemma TwoShardsAt(order: seq<int>, i: nat, n: nat, j: nat)
    requires i < j <= |order| && n > 0 && Ascending(order)
    ensures var docs := TwoShards(order, i, n, j);
            forall m :: 0 <= m < |order| ==> order[m] in docs && docs[order[m]] == if m == i then Join(Exes(n)) else if m == j then "x" else ""
  {
    hide Join, Exes;
  }

  lemma OneExe()
    ensures Join(Exes(1)) == "x"
  {
    assert Exes(1) == ["x"];
  }

  /** Nothing is trimmed from lines of ink. */
  lemma InkKept(n: nat, pages: seq<int>)
    requires n > 0 && |pages| == n
    ensures Aligned(Exes(n), pages) == pages
  {
    var lines := Exes(n);
    assert !Blank("x") by { assert !IsSpace("x"[0]); }
    assert lines[0] == "x" && lines[n - 1] == "x";
    assert Lead(lines) == 0 && Trail(lines) == 0;
  }

  lemma ExesAppend(n: nat)
    ensures Exes(n) + Exes(1) == Exes(n + 1)
  {
  }

  /** With two lines, a range that runs backwards by more than a page does so in the returned pages. */
  lemma OneBackwards(ranges: map<int, (int, int)>, order: seq<int>, i: nat) returns (docs: map<int, string>)
    requires Ascending(order) && i < |order| && order[i] in ranges && Span(ranges[order[i]]) <= -2
    ensures IsOrderOf(docs, order)
    ensures !Nondecreasing(Aligned(StitchAll(Plain, docs, ranges, order).lines, StitchAll(Plain, docs, ranges, order).pages))
  {
    hide Aligned, Exes, StitchAll, ShardPages, Nondecreasing, Join, TwoShards;
    docs := TwoShards(order, i, 2, |order|);
    StitchesTwo(ranges, order, i, 2, |order|, |order|);
    assert order[..|order|] == order;
    InkKept(2, ShardPages(ranges[order[i]], 2));
    ShardPagesBack(ranges[order[i]]);
    TwoShardsOrder(order, i, 2, |order|);
  }

  /** Two shards whose ranges are out of order, and documents for which their pages then are, too. */
  lemma OutOfOrder(ranges: map<int, (int, int)>, order: seq<int>, i: nat, j: nat) returns (docs: map<int, string>)
    requires Ascending(order) && i < j < |order| && order[i] in ranges && order[j] in ranges
    requires Span(ranges[order[i]]) >= -1 && Max(ranges[order[i]].0, ranges[order[i]].1) > ranges[order[j]].0
    ensures IsOrderOf(docs, order)
    ensures !Nondecreasing(Aligned(StitchAll(Plain, docs, ranges, order).lines, StitchAll(Plain, docs, ranges, order).pages))
  {
    hide Aligned, Exes, StitchAll, ShardPages, Nondecreasing, Join, TwoShards;
    var a, b := ranges[order[i]], ranges[order[j]];
    var n := Max(1, Span(a));
    docs := TwoShards(order, i, n, j);
    StitchesTwo(ranges, order, i, n, j, |order|);
    assert order[..|order|] == order;
    ExesAppend(n);
    var pages := ShardPages(a, n) + ShardPages(b, 1);
    InkKept(n + 1, pages);
    FullRange(a);
    assert ShardPages(b, 1)[0] == b.0 by { OnePage(b); }
    Descends(pages, n - 1);
    TwoShardsOrder(order, i, n, j);
  }

  lemma OnePage(range: (int, int))
    ensures ShardPages(range, 1)[0] == range.0
  {
    assert 0 * Span(range) == 0;
  }

  lemma TwoShardsOrder(order: seq<int>, i: nat, n: nat, j: nat)
    requires i < j <= |order| && n > 0 && Ascending(order)
    ensures IsOrderOf(TwoShards(order, i, n, j), order)
  {
    hide Join;
  }

  /** With a line for each page, the last line is on the last page; a single line is on the first. */
  lemma FullRange(range: (int, int))
    requires Span(range) >= -1
    ensures var n := Max(1, Span(range)); ShardPages(range, n)[n - 1] == Max(range.0, range.1)
  {
    var n := Max(1, Span(range));
    if Span(range) >= 1 {
      WholeQuotient(n - 1, n);
      hide Quotient;
      assert ShardPages(range, n)[n - 1] == range.0 + Quotient((n - 1) * n, n);
    } else {
      OnePage(range);
    }
  }

  lemma WholeQuotient(m: nat, n: int)
    requires n > 0
    ensures Quotient(m * n, n) == m
  {
    Times(0, m, n);
    var q := m * n / n;
    if q < m {
      Times(q + 1, m, n);
    } else if q > m {
      Times(m + 1, q, n);
    }
  }

  lemma Descends(pages: seq<int>, k: nat)
    requires k + 1 < |pages| && pages[k] > pages[k + 1]
    ensures !Nondecreasing(pages)
  {
  }

  /** Given ranges keep the returned pages in order for all shard contents exactly when they follow each other in index order. */
  lemma OrderedExactly(ranges: map<int, (int, int)>, order: seq<int>)
    requires Ascending(order)
    ensures AlwaysOrdered(ranges, order) <==> Following(ranges, order)
  {
    hide Aligned, StitchAll, Nondecreasing;
    if Following(ranges, order) {
      forall docs: map<int, string> | IsOrderOf(docs, order)
        ensures Nondecreasing(Aligned(StitchAll(Plain, docs, ranges, order).lines, StitchAll(Plain, docs, ranges, order).pages))
      {
        StitchedPagesOrdered(Plain, docs, ranges, order);
        AlignedOrdered(StitchAll(Plain, docs, ranges, order).lines, StitchAll(Plain, docs, ranges, order).pages);
      }
    } else {
      var docs: map<int, string>;
      if i :| 0 <= i < |order| && order[i] in ranges && Span(ranges[order[i]]) <= -2 {
        docs := OneBackwards(ranges, order, i);
      } else {
        var i, j :| 0 <= i < j < |order| && order[i] in ranges && order[j] in ranges
          && Max(ranges[order[i]].0, ranges[order[i]].1) > ranges[order[j]].0;
        docs := OutOfOrder(ranges, order, i, j);
      }
      assert IsOrderOf(docs, order);
    }
  }

  lemma AlignedOrdered(lines: seq<string>, pages: seq<int>)
    requires Nondecreasing(pages)
    ensures Nondecreasing(Aligned(lines, pages))
  {
    hide Lead, Trail, AllBlank;
    CoreSize(lines);
  }

  /** Re-split shards have later indices than the pages after them: what Stitch returns then runs backwards. */
  lemma ResplitPagesRunBackwards(order: seq<int>)
    requires IsOrderOf(map[1 := "b", 2 := "a"], order)
    ensures var ranges := map[1 := (3, 4), 2 := (1, 1)];
            var acc := StitchAll(Plain, map[1 := "b", 2 := "a"], ranges, order);
            Markdown(acc.lines) == "b\na\n" && Aligned(acc.lines, acc.pages) == [3, 1] && !Nondecreasing([3, 1])
  {
    hide StitchAll, Markdown, Aligned;
    AscendingUnique(order, [1, 2]);
    TwoLetters(map[1 := "b", 2 := "a"], map[1 := (3, 4), 2 := (1, 1)]);
    TwoLettersTrimmed();
    Descends([3, 1], 0);
  }

  lemma TwoLettersTrimmed()
    ensures Markdown(["b", "a"]) == "b\na\n" && Aligned(["b", "a"], [3, 1]) == [3, 1]
  {
    assert ["b", "a"][0] == "b" && ["b", "a"][1] == "a";
    assert !Blank("b") && !Blank("a") by { assert !IsSpace("b"[0]) && !IsSpace("a"[0]); }
    assert Lead(["b", "a"]) == 0 && Trail(["b", "a"]) == 0;
    assert Join(["b", "a"]) == "b\na" by { assert ["b", "a"][1..] == ["a"]; }
    assert TrimLeft("b\na") == "b\na" && TrimRight("b\na") == "b\na";
  }

  lemma TwoLetters(docs: map<int, string>, ranges: map<int, (int, int)>)
    requires docs == map[1 := "b", 2 := "a"] && ranges == map[1 := (3, 4), 2 := (1, 1)]
    ensures StitchAll(Plain, docs, ranges, [1, 2]) == Acc(["b", "a"], [3, 1])
  {
    assert DocLines("b") == ["b"] && DocLines("a") == ["a"];
    assert [1, 2][..1] == [1] && [1][..0] == [];
    assert FirstHeading(["a"]).None? by {
      assert TrimLeft("a") == "a" && TrimRight("a") == "a";
    }
    StitchNone(Plain, docs, ranges);
    assert Deduped([], ["b"]) == ["b"] && Deduped(["b"], ["a"]) == ["a"];
    assert ShardPages((3, 4), 1) == [3] && ShardPages((1, 1), 1) == [1];
    StitchNext(Plain, docs, ranges, [1, 2], 0);
    StitchNext(Plain, docs, ranges, [1, 2], 1);
    assert [1, 2][..2] == [1, 2];
  }
}
