/** Coalescing adjacent tiny chunks that share heading context. */
module Coalesce {
  import opened Text
  import opened Chunks
  import opened Lines

  // ---- commonHeadingPrefix --------------------------------------------------

  function CommonCount(a: seq<string>, b: seq<string>): (n: nat)
    ensures n <= |a| && n <= |b| && a[..n] == b[..n]
    ensures n < |a| && n < |b| ==> a[n] != b[n]
  {
    if a == [] || b == [] || a[0] != b[0] then 0
    else
      var n := 1 + CommonCount(a[1..], b[1..]);
      assert a[..n] == [a[0]] + a[1..][..n - 1] && b[..n] == [b[0]] + b[1..][..n - 1];
      n
  }

  /** The leading whole lines two breadcrumbs share. */
  function CommonPrefix(a: string, b: string): string {
    if a == "" || b == "" then ""
    else Join(Split(a)[..CommonCount(Split(a), Split(b))])
  }

  /** a is empty or consists of the leading lines of b. */
  predicate LeadingLines(a: string, b: string) {
    a == "" || Split(a) <= Split(b)
  }

  lemma CommonPrefixLeads(a: string, b: string)
    ensures LeadingLines(CommonPrefix(a, b), a) && LeadingLines(CommonPrefix(a, b), b)
  {
    if a != "" && b != "" {
      var n := CommonCount(Split(a), Split(b));
      if n > 0 {
        SplitJoin(Split(a)[..n]);
      }
    }
  }

  // ---- coalesceTinyChunks ---------------------------------------------------

  const MIN_TARGET: int := 200

  function Target(chunkSize: int): int {
    if chunkSize / 2 < MIN_TARGET then MIN_TARGET else chunkSize / 2
  }

  predicate ShouldJoin(chunkSize: int, cur: Chunk, next: Chunk) {
    && CommonPrefix(cur.contextHeader, next.contextHeader) != ""
    && cur.end == next.start
    && |cur.content| < Target(chunkSize) && |cur.content| + |next.content| <= chunkSize
  }

  function Joined(cur: Chunk, next: Chunk): Chunk {
    cur.(content := cur.content + next.content,
         contextHeader := CommonPrefix(cur.contextHeader, next.contextHeader),
         end := next.end)
  }

  /** The greedy left-to-right merge of cur with what follows it. */
  function MergeFrom(chunkSize: int, cur: Chunk, rest: seq<Chunk>): seq<Chunk>
    decreases |rest|
  {
    if rest == [] then [cur]
    else if ShouldJoin(chunkSize, cur, rest[0]) then MergeFrom(chunkSize, Joined(cur, rest[0]), rest[1..])
    else [cur] + MergeFrom(chunkSize, rest[0], rest[1..])
  }

  function Renumbered(cs: seq<Chunk>): (r: seq<Chunk>)
    ensures |r| == |cs| && DenseSeq(r)
  {
    seq(|cs|, i requires 0 <= i < |cs| => cs[i].(seqNo := i))
  }

  /** One turn of the merge, after the chunks already out. */
  lemma MergeNext(chunkSize: int, out: seq<Chunk>, cur: Chunk, input: seq<Chunk>, i: nat)
    requires i <= |input|
    ensures out + MergeFrom(chunkSize, cur, input[i..])
            == if i == |input| then out + [cur]
               else if ShouldJoin(chunkSize, cur, input[i]) then out + MergeFrom(chunkSize, Joined(cur, input[i]), input[i + 1..])
               else out + [cur] + MergeFrom(chunkSize, input[i], input[i + 1..])
  {
    hide ShouldJoin, Joined;
    if i < |input| {
      assert input[i..][0] == input[i] && input[i..][1..] == input[i + 1..];
      assert out + ([cur] + MergeFrom(chunkSize, input[i], input[i + 1..])) == out + [cur] + MergeFrom(chunkSize, input[i], input[i + 1..]);
    } else {
      assert input[i..] == [];
    }
  }

  // ---- the groups that are merged -------------------------------------------

  function Contents(cs: seq<Chunk>): string {
    if cs == [] then "" else cs[0].content + Contents(cs[1..])
  }

  function CrumbLinesOf(c: Chunk): seq<string> {
    Split(c.contextHeader)
  }

  /** The first n lines of the breadcrumbs are the same in all the chunks. */
  predicate Shares(cs: seq<Chunk>, n: nat) {
    forall i :: 0 <= i < |cs| ==> SameFirst(CrumbLinesOf(cs[i]), CrumbLinesOf(cs[0]), n)
  }

  predicate SameFirst(a: seq<string>, b: seq<string>, n: nat) {
    n <= |a| && n <= |b| && a[..n] == b[..n]
  }

  /** h is all the leading lines that the chunks' breadcrumbs share. */
  ghost predicate SharedCrumb(cs: seq<Chunk>, h: string)
    requires cs != []
  {
    exists n: nat :: SharedCount(cs, n) && h == Join(CrumbLinesOf(cs[0])[..n])
  }

  predicate SharedCount(cs: seq<Chunk>, n: nat)
    requires cs != []
    ensures SharedCount(cs, n) ==> n <= |CrumbLinesOf(cs[0])|
  {
    Shares(cs, n) && !Shares(cs, n + 1)
  }

  /** next may join the chunks already merged: they touch, share a breadcrumb, are still small, and there is room. */
  ghost predicate Joinable(chunkSize: int, cs: seq<Chunk>, next: Chunk)
    requires cs != []
  {
    && cs[|cs| - 1].end == next.start && (exists h :: h != "" && SharedCrumb(cs + [next], h))
    && (|Contents(cs)| < 200 || |Contents(cs)| < chunkSize / 2) && |Contents(cs)| + |next.content| <= chunkSize
  }

  /** c is input[a..b] merged: their texts in order, their range, and the breadcrumb they share. */
  ghost predicate GroupOf(chunkSize: int, input: seq<Chunk>, a: nat, b: nat, c: Chunk) {
    && a < b <= |input| && c.content == Contents(input[a..b]) && c.start == input[a].start && c.end == input[b - 1].end
    && c.synthetic == input[a].synthetic && c.pages == input[a].pages && SharedCrumb(input[a..b], c.contextHeader)
    && forall j :: a < j < b ==> Joinable(chunkSize, input[a..j], input[j])
  }

  /** cuts are the borders of the groups, from cut a on: each group stops only where the next chunk may not join it. */
  ghost predicate Grouped(chunkSize: int, input: seq<Chunk>, a: nat, out: seq<Chunk>, cuts: seq<nat>) {
    && |cuts| == |out| + 1 && cuts[0] == a && cuts[|out|] == |input|
    && (forall i :: 0 <= i < |cuts| ==> cuts[i] <= |input|) && (forall i, j :: 0 <= i < j < |cuts| ==> cuts[i] < cuts[j])
    && (forall i :: 0 <= i < |out| ==> GroupOf(chunkSize, input, cuts[i], cuts[i + 1], out[i]))
    && forall i :: 0 < i < |out| ==> !Joinable(chunkSize, input[cuts[i - 1]..cuts[i]], input[cuts[i]])
  }

  lemma SharesLess(cs: seq<Chunk>, k: nat, n: nat)
    requires Shares(cs, n) && k <= n
    ensures Shares(cs, k)
  {
    hide Split;
    forall i | 0 <= i < |cs| ensures SameFirst(CrumbLinesOf(cs[i]), CrumbLinesOf(cs[0]), k) {
      assert CrumbLinesOf(cs[i])[..k] == CrumbLinesOf(cs[i])[..n][..k];
    }
  }

  lemma SharesMore(cs: seq<Chunk>, next: Chunk, n: nat, k: nat)
    requires cs != [] && SharedCount(cs, n)
    ensures Shares(cs + [next], k) <==> k <= CommonCount(CrumbLinesOf(cs[0])[..n], CrumbLinesOf(next))
  {
    hide Split, CommonCount;
    var all, l, x := cs + [next], CrumbLinesOf(cs[0]), CrumbLinesOf(next);
    var m := CommonCount(l[..n], x);
    if Shares(all, k) {
      SharesFront(cs, next, k);
      if k > n {
        SharesLess(cs, n + 1, k);
      }
      CommonMost(l[..n], x, k);
    }
    if k <= m {
      SharesLess(cs, k, n);
      assert x[..k] == x[..m][..k] && l[..n][..m][..k] == l[..k];
      SharesBack(cs, next, k);
    }
  }

  lemma CommonMost(a: seq<string>, b: seq<string>, k: nat)
    requires k <= |a| && k <= |b| && a[..k] == b[..k]
    ensures k <= CommonCount(a, b)
  {
    forall i | 0 <= i < k ensures a[i] == b[i] {
      assert a[..k][i] == b[..k][i];
    }
  }

  lemma SharesFront(cs: seq<Chunk>, next: Chunk, k: nat)
    requires cs != [] && Shares(cs + [next], k)
    ensures Shares(cs, k) && SameFirst(CrumbLinesOf(next), CrumbLinesOf(cs[0]), k)
  {
    hide CrumbLinesOf;
    var all := cs + [next];
    assert all[|cs|] == next && all[0] == cs[0];
    assert forall i :: 0 <= i < |cs| ==> all[i] == cs[i];
  }

  lemma SharesBack(cs: seq<Chunk>, next: Chunk, k: nat)
    requires cs != [] && Shares(cs, k) && SameFirst(CrumbLinesOf(next), CrumbLinesOf(cs[0]), k)
    ensures Shares(cs + [next], k)
  {
    hide CrumbLinesOf;
  }

  /** Joining two breadcrumbs is sharing among all the chunks. */
  lemma SharedNext(cs: seq<Chunk>, cur: string, next: Chunk, n: nat)
    requires cs != [] && SharedCount(cs, n) && n >= 1 && cur == Join(CrumbLinesOf(cs[0])[..n])
    ensures var m := CommonCount(CrumbLinesOf(cs[0])[..n], CrumbLinesOf(next));
            SharedCount(cs + [next], m) && CommonPrefix(cur, next.contextHeader) == Join(CrumbLinesOf(cs[0])[..m])
  {
    hide Split, CommonCount, Join, Shares;
    var l := CrumbLinesOf(cs[0])[..n];
    var m := CommonCount(l, CrumbLinesOf(next));
    SharesMore(cs, next, n, m);
    SharesMore(cs, next, n, m + 1);
    SplitJoin(l);
    assert l[..m] == CrumbLinesOf(cs[0])[..m];
    if cur == "" || next.contextHeader == "" {
      EmptyShared(l, CrumbLinesOf(next), m);
    }
  }

  lemma EmptyShared(a: seq<string>, b: seq<string>, m: nat)
    requires a != [] && b != [] && m <= |a| && m <= |b| && a[..m] == b[..m] && (a == Split("") || b == Split(""))
    ensures Join(a[..m]) == ""
  {
    if m > 0 {
      assert a[..m] == [""] by {
        assert m == 1 && a[..m][0] == b[..m][0];
      }
    }
  }

  lemma OneCount(cs: seq<Chunk>, m: nat, n: nat)
    requires cs != [] && SharedCount(cs, m) && SharedCount(cs, n)
    ensures m == n
  {
    hide CrumbLinesOf, Shares;
    if m < n { SharesLess(cs, m + 1, n); }
    if n < m { SharesLess(cs, n + 1, m); }
  }

  lemma Alone(chunkSize: int, input: seq<Chunk>, a: nat)
    requires a < |input|
    ensures GroupOf(chunkSize, input, a, a + 1, input[a])
  {
    hide Split, Join;
    var one := input[a..a + 1];
    assert one == [input[a]] && one[1..] == [];
    var l := CrumbLinesOf(input[a]);
    assert SharedCount(one, |l|) && l[..|l|] == l;
    JoinSplit(input[a].contextHeader);
    assert SharedCrumb(one, input[a].contextHeader);
    assert Contents(one[1..]) == "";
  }

  lemma {:induction false} ContentsSnoc(cs: seq<Chunk>, c: Chunk)
    ensures Contents(cs + [c]) == Contents(cs) + c.content
  {
    if cs == [] {
      assert ([] + [c])[1..] == [];
    } else {
      ContentsSnoc(cs[1..], c);
      assert (cs + [c])[1..] == cs[1..] + [c];
    }
  }

  /** The guard of the loop, on the chunk merged so far, is the condition on the group. */
  lemma GroupNext(chunkSize: int, input: seq<Chunk>, a: nat, b: nat, c: Chunk)
    requires GroupOf(chunkSize, input, a, b, c) && b < |input|
    ensures ShouldJoin(chunkSize, c, input[b]) <==> Joinable(chunkSize, input[a..b], input[b])
    ensures ShouldJoin(chunkSize, c, input[b]) ==> GroupOf(chunkSize, input, a, b + 1, Joined(c, input[b]))
  {
    hide Split, Join, SharedCrumb, CommonPrefix, Contents;
    var cs, next := input[a..b], input[b];
    assert cs + [next] == input[a..b + 1] && cs[|cs| - 1] == input[b - 1];
    CrumbNext(chunkSize, input, a, b, c.contextHeader);
    ContentsSnoc(cs, next);
    var h := CommonPrefix(c.contextHeader, next.contextHeader);
    assert SharedCrumb(cs + [next], h);
    assert Joinable(chunkSize, cs, next) <==> ShouldJoin(chunkSize, c, next);
  }

  lemma CrumbNext(chunkSize: int, input: seq<Chunk>, a: nat, b: nat, crumb: string)
    requires a < b < |input| && SharedCrumb(input[a..b], crumb)
    requires forall j :: a < j < b ==> Joinable(chunkSize, input[a..j], input[j])
    ensures forall g :: SharedCrumb(input[a..b] + [input[b]], g) <==> g == CommonPrefix(crumb, input[b].contextHeader)
  {
    hide Split, Join, Shares, CommonPrefix, Contents, Joinable;
    var cs, next := input[a..b], input[b];
    var n: nat :| SharedCount(cs, n) && crumb == Join(CrumbLinesOf(cs[0])[..n]);
    GroupCount(chunkSize, input, a, b, n);
    SharedNext(cs, crumb, next, n);
    var m := CommonCount(CrumbLinesOf(cs[0])[..n], CrumbLinesOf(next));
    forall g | SharedCrumb(cs + [next], g) ensures g == CommonPrefix(crumb, next.contextHeader) {
      var k: nat :| SharedCount(cs + [next], k) && g == Join(CrumbLinesOf(cs[0])[..k]);
      OneCount(cs + [next], k, m);
    }
  }

  /** A group shares at least one line. */
  lemma GroupCount(chunkSize: int, input: seq<Chunk>, a: nat, b: nat, n: nat)
    requires a < b <= |input| && (forall j :: a < j < b ==> Joinable(chunkSize, input[a..j], input[j])) && SharedCount(input[a..b], n)
    ensures n >= 1
  {
    hide Split, Contents, Joinable;
    var cs := input[a..b];
    if b == a + 1 {
      assert Shares(cs, 1) by {
        assert cs == [input[a]];
      }
    } else {
      assert input[a..b - 1] + [input[b - 1]] == cs;
      JoinableCount(chunkSize, input[a..b - 1], input[b - 1], n);
    }
  }

  lemma JoinableCount(chunkSize: int, cs: seq<Chunk>, next: Chunk, n: nat)
    requires cs != [] && Joinable(chunkSize, cs, next) && SharedCount(cs + [next], n)
    ensures n >= 1
  {
    hide Shares, Contents, CrumbLinesOf;
    var h :| h != "" && SharedCrumb(cs + [next], h);
    var k: nat :| SharedCount(cs + [next], k) && h == Join(CrumbLinesOf(cs[0])[..k]);
    OneCount(cs + [next], k, n);
  }

  /** The greedy merge forms groups of adjacent chunks, each as large as it may be. */
  lemma {:induction false} MergeGroups(chunkSize: int, input: seq<Chunk>, a: nat, b: nat, cur: Chunk) returns (cuts: seq<nat>)
    requires GroupOf(chunkSize, input, a, b, cur)
    ensures Grouped(chunkSize, input, a, MergeFrom(chunkSize, cur, input[b..]), cuts)
    decreases |input| - b
  {
    hide GroupOf, Joinable, ShouldJoin, Joined;
    GroupBounds(chunkSize, input, a, b, cur);
    if b == |input| {
      cuts := [a, b];
      assert input[b..] == [];
    } else {
      GroupNext(chunkSize, input, a, b, cur);
      var next := input[b];
      assert input[b..][0] == next && input[b..][1..] == input[b + 1..];
      if ShouldJoin(chunkSize, cur, next) {
        cuts := MergeGroups(chunkSize, input, a, b + 1, Joined(cur, next));
      } else {
        Alone(chunkSize, input, b);
        var rest := MergeGroups(chunkSize, input, b, b + 1, next);
        cuts := [a] + rest;
        GroupedMore(chunkSize, input, a, b, cur, MergeFrom(chunkSize, next, input[b + 1..]), rest);
      }
    }
  }

  lemma GroupBounds(chunkSize: int, input: seq<Chunk>, a: nat, b: nat, c: Chunk)
    requires GroupOf(chunkSize, input, a, b, c)
    ensures a < b <= |input|
  {
  }

  lemma GroupedMore(chunkSize: int, input: seq<Chunk>, a: nat, b: nat, c: Chunk, out: seq<Chunk>, cuts: seq<nat>)
    requires GroupOf(chunkSize, input, a, b, c) && a < b < |input| && Grouped(chunkSize, input, b, out, cuts)
    requires !Joinable(chunkSize, input[a..b], input[b])
    ensures Grouped(chunkSize, input, a, [c] + out, [a] + cuts)
  {
    hide GroupOf, Joinable;
    var all, borders := [c] + out, [a] + cuts;
    forall i | 0 <= i < |all| ensures GroupOf(chunkSize, input, borders[i], borders[i + 1], all[i]) {
      if i > 0 { assert GroupOf(chunkSize, input, cuts[i - 1], cuts[i], out[i - 1]); }
    }
    forall i | 0 < i < |all| ensures !Joinable(chunkSize, input[borders[i - 1]..borders[i]], input[borders[i]]) {
      if i > 1 { assert !Joinable(chunkSize, input[cuts[i - 2]..cuts[i - 1]], input[cuts[i - 1]]); }
    }
  }

  /** What coalescing makes of its input: groups of adjacent chunks, numbered anew. */
  ghost predicate Coalesced(chunkSize: int, input: seq<Chunk>, out: seq<Chunk>) {
    DenseSeq(out) && exists cuts :: Grouped(chunkSize, input, 0, out, cuts)
  }

  lemma GroupsRenumbered(chunkSize: int, input: seq<Chunk>, merged: seq<Chunk>, cuts: seq<nat>)
    requires Grouped(chunkSize, input, 0, merged, cuts)
    ensures Coalesced(chunkSize, input, Renumbered(merged))
  {
    hide Joinable, SharedCrumb, Contents;
    var out := Renumbered(merged);
    forall i | 0 <= i < |out| ensures GroupOf(chunkSize, input, cuts[i], cuts[i + 1], out[i]) {
      assert GroupOf(chunkSize, input, cuts[i], cuts[i + 1], merged[i]);
    }
    assert Grouped(chunkSize, input, 0, out, cuts);
  }

  lemma MergeIsCoalesced(chunkSize: int, input: seq<Chunk>)
    requires input != []
    ensures Coalesced(chunkSize, input, Renumbered(MergeFrom(chunkSize, input[0], input[1..])))
  {
    hide Coalesced, Grouped, GroupOf;
    Alone(chunkSize, input, 0);
    var cuts := MergeGroups(chunkSize, input, 0, 1, input[0]);
    GroupsRenumbered(chunkSize, input, MergeFrom(chunkSize, input[0], input[1..]), cuts);
  }

  method CoalesceTiny(input: seq<Chunk>, chunkSize: int) returns (out: seq<Chunk>)
    ensures out == if |input| <= 1 || chunkSize <= 0 then input
                   else Renumbered(MergeFrom(chunkSize, input[0], input[1..]))
    ensures |input| > 1 && chunkSize > 0 ==> Coalesced(chunkSize, input, out)
  {
    hide MergeFrom, CommonPrefix, Coalesced;
    if |input| <= 1 || chunkSize <= 0 {
      return input;
    }
    var target := chunkSize / 2;
    if target < 200 {
      target := 200;
    }
    out := [];
    var cur := input[0];
    var curLen := |cur.content|;
    ghost var all := MergeFrom(chunkSize, input[0], input[1..]);
    MergeIsCoalesced(chunkSize, input);
    for i := 1 to |input|
      invariant curLen == |cur.content|
      invariant out + MergeFrom(chunkSize, cur, input[i..]) == all
    {
      var next := input[i];
      MergeNext(chunkSize, out, cur, input, i);
      var nextLen := |next.content|;
      var sharedHeader := CommonPrefix(cur.contextHeader, next.contextHeader);
      if sharedHeader != "" && cur.end == next.start && curLen < target && curLen + nextLen <= chunkSize {
        cur := cur.(content := cur.content + next.content, contextHeader := sharedHeader, end := next.end);
        curLen := curLen + nextLen;
        continue;
      }
      out := out + [cur];
      cur, curLen := next, nextLen;
    }
    MergeNext(chunkSize, out, cur, input, |input|);
    out := out + [cur];
    for i := 0 to |out|
      invariant |out| == |all|
      invariant forall k :: 0 <= k < |out| ==> out[k] == if k < i then all[k].(seqNo := k) else all[k]
    {
      out := out[i := out[i].(seqNo := i)];
    }
  }

  // ---- what coalescing keeps ------------------------------------------------

  /** A chunk with an injected header is never adjacent to, and small enough to join, the one before it. */
  predicate NeverJoins(chunkSize: int, prev: Chunk, next: Chunk) {
    next.synthetic > 0 ==> !(prev.end == next.start && |prev.content| + |next.content| <= chunkSize)
  }

  predicate Separate(chunkSize: int, cs: seq<Chunk>) {
    forall i :: 0 < i < |cs| ==> NeverJoins(chunkSize, cs[i - 1], cs[i])
  }

  /** out starts where some input chunk does, under leading lines of that chunk's breadcrumb. */
  predicate Descends(input: seq<Chunk>, out: Chunk) {
    exists i :: 0 <= i < |input| && out.start == input[i].start && LeadingLines(out.contextHeader, input[i].contextHeader)
  }

  /** No text is added, dropped or reordered. */
  lemma {:induction false} MergeKeepsText(chunkSize: int, cur: Chunk, rest: seq<Chunk>)
    ensures Contents(MergeFrom(chunkSize, cur, rest)) == cur.content + Contents(rest)
    decreases |rest|
  {
    hide ShouldJoin, CommonPrefix;
    if rest == [] {
      assert [cur][1..] == [];
    } else if ShouldJoin(chunkSize, cur, rest[0]) {
      MergeKeepsText(chunkSize, Joined(cur, rest[0]), rest[1..]);
    } else {
      MergeKeepsText(chunkSize, rest[0], rest[1..]);
      ContentsCons(cur, MergeFrom(chunkSize, rest[0], rest[1..]));
    }
  }

  lemma ContentsCons(c: Chunk, cs: seq<Chunk>)
    ensures Contents([c] + cs) == c.content + Contents(cs)
  {
    assert ([c] + cs)[1..] == cs;
  }

  /** The greedy merge appends a chunk that carries an injected header. */
  predicate HeaderJoined(chunkSize: int, cur: Chunk, rest: seq<Chunk>)
    decreases |rest|
  {
    rest != []
    && if ShouldJoin(chunkSize, cur, rest[0]) then rest[0].synthetic > 0 || HeaderJoined(chunkSize, Joined(cur, rest[0]), rest[1..])
       else HeaderJoined(chunkSize, rest[0], rest[1..])
  }

  /** Runes of a chunk's content that neither its range nor its synthetic count accounts for. */
  function Surplus(c: Chunk): int {
    |c.content| - c.synthetic - (c.end - c.start)
  }

  lemma VerbatimHasNoSurplus(src: string, c: Chunk)
    requires Verbatim(src, c)
    ensures Surplus(c) == 0
  {
    assert |c.content[c.synthetic..]| == |src[c.start..c.end]|;
  }

  /** A surplus is never merged away. */
  lemma {:induction false} SurplusStays(src: string, chunkSize: int, cur: Chunk, rest: seq<Chunk>)
    requires Surplus(cur) > 0 && AllVerbatim(src, rest)
    ensures !AllVerbatim(src, MergeFrom(chunkSize, cur, rest))
    decreases |rest|
  {
    hide ShouldJoin, Verbatim;
    if Verbatim(src, cur) {
      VerbatimHasNoSurplus(src, cur);
    }
    if rest == [] {
      assert [cur][0] == cur;
    } else if ShouldJoin(chunkSize, cur, rest[0]) {
      VerbatimHasNoSurplus(src, rest[0]);
      JoinsMeet(chunkSize, cur, rest[0]);
      SurplusStays(src, chunkSize, Joined(cur, rest[0]), rest[1..]);
    } else {
      assert ([cur] + MergeFrom(chunkSize, rest[0], rest[1..]))[0] == cur;
    }
  }

  lemma JoinsMeet(chunkSize: int, cur: Chunk, next: Chunk)
    requires ShouldJoin(chunkSize, cur, next)
    ensures Surplus(Joined(cur, next)) == Surplus(cur) + Surplus(next) + next.synthetic
    ensures cur.end == next.start
  {
  }

  /** Merging verbatim chunks keeps them verbatim exactly when no chunk with an injected header is appended to another. */
  lemma {:induction false} VerbatimExactly(src: string, chunkSize: int, cur: Chunk, rest: seq<Chunk>)
    requires Verbatim(src, cur) && AllVerbatim(src, rest)
    ensures AllVerbatim(src, MergeFrom(chunkSize, cur, rest)) <==> !HeaderJoined(chunkSize, cur, rest)
    decreases |rest|
  {
    hide ShouldJoin, Verbatim, Surplus;
    if rest == [] {
    } else {
      var next, tail := rest[0], rest[1..];
      assert Verbatim(src, next) && AllVerbatim(src, tail);
      if ShouldJoin(chunkSize, cur, next) {
        JoinsMeet(chunkSize, cur, next);
        if next.synthetic > 0 {
          VerbatimHasNoSurplus(src, cur);
          VerbatimHasNoSurplus(src, next);
          SurplusStays(src, chunkSize, Joined(cur, next), tail);
        } else {
          JoinedVerbatim(src, cur, next);
          VerbatimExactly(src, chunkSize, Joined(cur, next), tail);
        }
      } else {
        VerbatimExactly(src, chunkSize, next, tail);
        var merged := MergeFrom(chunkSize, next, tail);
        FirstVerbatim(src, cur, merged);
      }
    }
  }

  lemma FirstVerbatim(src: string, cur: Chunk, merged: seq<Chunk>)
    requires Verbatim(src, cur)
    ensures AllVerbatim(src, [cur] + merged) <==> AllVerbatim(src, merged)
  {
    hide Verbatim;
    forall i | 0 <= i < |merged| ensures ([cur] + merged)[i + 1] == merged[i] {
    }
  }

  /** A chunk with an injected header can never meet the merge guard, so none is appended. */
  lemma {:induction false} NoHeaderJoined(chunkSize: int, cur: Chunk, rest: seq<Chunk>)
    requires (rest != [] ==> NeverJoins(chunkSize, cur, rest[0])) && Separate(chunkSize, rest)
    ensures !HeaderJoined(chunkSize, cur, rest)
    decreases |rest|
  {
    if rest == [] {
    } else {
      var next, tail := rest[0], rest[1..];
      assert Separate(chunkSize, tail) by {
        forall i | 0 < i < |tail| ensures NeverJoins(chunkSize, tail[i - 1], tail[i]) {
          assert tail[i] == rest[i + 1] && tail[i - 1] == rest[i];
        }
      }
      if tail != [] {
        assert NeverJoins(chunkSize, rest[0], rest[1]);
      }
      NoHeaderJoined(chunkSize, if ShouldJoin(chunkSize, cur, next) then Joined(cur, next) else next, tail);
    }
  }

  /** The verbatim invariant survives although the merge never touches the synthetic count. */
  lemma MergeKeepsVerbatim(src: string, chunkSize: int, cur: Chunk, rest: seq<Chunk>)
    requires Verbatim(src, cur) && AllVerbatim(src, rest)
    requires (rest != [] ==> NeverJoins(chunkSize, cur, rest[0])) && Separate(chunkSize, rest)
    ensures AllVerbatim(src, MergeFrom(chunkSize, cur, rest))
  {
    NoHeaderJoined(chunkSize, cur, rest);
    VerbatimExactly(src, chunkSize, cur, rest);
  }

  lemma JoinedVerbatim(src: string, cur: Chunk, next: Chunk)
    requires Verbatim(src, cur) && Verbatim(src, next) && cur.end == next.start && next.synthetic == 0
    ensures Verbatim(src, Joined(cur, next))
  {
    var j := Joined(cur, next);
    assert next.content[0..] == next.content;
    assert j.content[j.synthetic..] == cur.content[cur.synthetic..] + next.content;
    assert src[j.start..j.end] == src[cur.start..cur.end] + src[next.start..next.end];
  }

  /** Every covered rune stays covered. */
  lemma {:induction false} MergeKeepsCover(chunkSize: int, cur: Chunk, rest: seq<Chunk>, k: int)
    requires cur.start <= k < cur.end || InSome(rest, k)
    requires cur.start <= cur.end && forall i :: 0 <= i < |rest| ==> rest[i].start <= rest[i].end
    ensures InSome(MergeFrom(chunkSize, cur, rest), k)
    decreases |rest|
  {
    if rest == [] {
      assert [cur][0] == cur;
    } else {
      var next, tail := rest[0], rest[1..];
      assert rest == [next] + tail;
      InSomeAppend([next], tail, k);
      if ShouldJoin(chunkSize, cur, next) {
        MergeKeepsCover(chunkSize, Joined(cur, next), tail, k);
      } else {
        var merged := MergeFrom(chunkSize, next, tail);
        InSomeAppend([cur], merged, k);
        if cur.start <= k < cur.end {
          assert [cur][0] == cur;
        } else {
          MergeKeepsCover(chunkSize, next, tail, k);
        }
      }
    }
  }

  /** Starts and breadcrumbs of merged chunks. */
  lemma {:induction false} MergeDescends(chunkSize: int, input: seq<Chunk>, cur: Chunk, n: nat)
    requires n <= |input| && Descends(input, cur)
    ensures forall c :: c in MergeFrom(chunkSize, cur, input[n..]) ==> Descends(input, c)
    decreases |input| - n
  {
    hide ShouldJoin, Descends;
    if n == |input| {
    } else {
      var next := input[n];
      assert input[n..][0] == next && input[n..][1..] == input[n + 1..];
      InputDescends(input, n);
      if ShouldJoin(chunkSize, cur, next) {
        JoinDescends(input, cur, next);
        MergeDescends(chunkSize, input, Joined(cur, next), n + 1);
      } else {
        MergeDescends(chunkSize, input, next, n + 1);
      }
    }
  }

  lemma InputDescends(input: seq<Chunk>, n: nat)
    requires n < |input|
    ensures Descends(input, input[n])
  {
    assert LeadingLines(input[n].contextHeader, input[n].contextHeader);
  }

  lemma JoinDescends(input: seq<Chunk>, cur: Chunk, next: Chunk)
    requires Descends(input, cur)
    ensures Descends(input, Joined(cur, next))
  {
    CommonPrefixLeads(cur.contextHeader, next.contextHeader);
    var i :| 0 <= i < |input| && cur.start == input[i].start && LeadingLines(cur.contextHeader, input[i].contextHeader);
    assert LeadingLines(CommonPrefix(cur.contextHeader, next.contextHeader), input[i].contextHeader);
  }

  /** No merged chunk is longer than the longest input or the chunk size. */
  lemma {:induction false} MergeSizes(chunkSize: int, cur: Chunk, rest: seq<Chunk>, cap: int)
    requires chunkSize <= cap && |cur.content| <= cap && forall i :: 0 <= i < |rest| ==> |rest[i].content| <= cap
    ensures forall c :: c in MergeFrom(chunkSize, cur, rest) ==> |c.content| <= cap
    decreases |rest|
  {
    if rest == [] {
    } else if ShouldJoin(chunkSize, cur, rest[0]) {
      MergeSizes(chunkSize, Joined(cur, rest[0]), rest[1..], cap);
    } else {
      MergeSizes(chunkSize, rest[0], rest[1..], cap);
    }
  }
}
