/** Planning embedding batches, and pairing vectors with chunks. */
module Batches {
  import opened Numbers
  import opened Text
  import opened Sequences

  // ---- words ----------------------------------------------------------------

  predicate IsWord(w: string) {
    w != "" && forall i :: 0 <= i < |w| ==> !IsSpace(w[i])
  }

  /** Length of the leading run of non-space runes. */
  function WordLen(s: string): (n: nat)
    ensures n <= |s| && (forall i :: 0 <= i < n ==> !IsSpace(s[i])) && (n < |s| ==> IsSpace(s[n]))
  {
    if s == "" || IsSpace(s[0]) then 0 else 1 + WordLen(s[1..])
  }

  lemma {:induction false} TrimLeftHead(s: string)
    ensures |TrimLeft(s)| <= |s| && (TrimLeft(s) != "" ==> !IsSpace(TrimLeft(s)[0]))
  {
    if s == "" || !IsSpace(s[0]) {
    } else {
      TrimLeftHead(s[1..]);
    }
  }

  /** strings.Fields */
  function Fields(s: string): (ws: seq<string>)
    ensures forall i :: 0 <= i < |ws| ==> IsWord(ws[i])
    decreases |s|
  {
    TrimLeftHead(s);
    var t := TrimLeft(s);
    if t == "" then [] else
      var n := WordLen(t);
      assert IsWord(t[..n]);
      [t[..n]] + Fields(t[n..])
  }

  /** strings.Join(ws, " ") */
  function JoinWords(ws: seq<string>): string {
    if ws == [] then "" else if |ws| == 1 then ws[0] else ws[0] + " " + JoinWords(ws[1..])
  }

  /** Joining words and splitting again gives the same words. */
  lemma {:induction false} FieldsOfJoin(ws: seq<string>)
    requires forall i :: 0 <= i < |ws| ==> IsWord(ws[i])
    ensures Fields(JoinWords(ws)) == ws
  {
    NoFields();
    hide Fields, IsWord;
    if ws == [] {
    } else {
      if |ws| == 1 {
        assert ws[0] + "" == ws[0];
        FieldsAhead(ws[0], "");
      } else {
        FieldsAhead(ws[0], " " + JoinWords(ws[1..]));
        assert ws[0] + " " + JoinWords(ws[1..]) == ws[0] + (" " + JoinWords(ws[1..]));
        FieldsOfJoin(ws[1..]);
        FieldsSkip(JoinWords(ws[1..]));
        assert ws == [ws[0]] + ws[1..];
      }
    }
  }

  lemma NoFields()
    ensures Fields("") == []
  {
  }

  lemma FieldsAhead(w: string, rest: string)
    requires IsWord(w) && (rest == "" || IsSpace(rest[0]))
    ensures Fields(w + rest) == [w] + Fields(rest)
  {
    assert (w + rest)[0] == w[0];
    WordAhead(w, rest);
  }

  lemma {:induction false} WordAhead(w: string, rest: string)
    requires (forall i :: 0 <= i < |w| ==> !IsSpace(w[i])) && (rest == "" || IsSpace(rest[0]))
    ensures WordLen(w + rest) == |w| && (w + rest)[..|w|] == w && (w + rest)[|w|..] == rest
  {
    if w == "" {
      assert w + rest == rest;
    } else {
      assert (w + rest)[1..] == w[1..] + rest;
      WordAhead(w[1..], rest);
    }
  }

  lemma FieldsSkip(s: string)
    ensures Fields(" " + s) == Fields(s)
  {
    TrimLeftAppend(" ", s);
  }

  /** WhitespaceTokenizer.Count */
  function Count(text: string): nat {
    |Fields(text)|
  }

  /** The first n words. */
  function FirstWords(text: string, budget: int): string {
    JoinWords(Fields(text)[..if budget < 0 then 0 else if budget < Count(text) then budget else Count(text)])
  }

  /** splitWordsTruncate: words until the budget is reached. */
  method SplitWordsTruncate(text: string, budget: int) returns (cut: string)
    ensures cut == FirstWords(text, budget)
    ensures Fields(cut) <= Fields(text) && Count(cut) == Max(0, Min(budget, Count(text)))
  {
    var ws := Fields(text);
    var cur: seq<string> := [];
    var tokens := 0;
    for i := 0 to |ws|
      invariant cur == ws[..i] && tokens == i && (i > 0 ==> tokens <= budget)
    {
      FieldsOfJoin([ws[i]]);
      var t := Count(ws[i]);
      if tokens + t > budget {
        break;
      }
      cur := cur + [ws[i]];
      tokens := tokens + t;
    }
    cut := JoinWords(cur);
    FieldsOfJoin(cur);
  }

  // ---- batches --------------------------------------------------------------

  /** The text as it is sent: cut to the budget when it exceeds it. */
  function Fit(text: string, budget: int): string {
    if Count(text) > budget then FirstWords(text, budget) else text
  }

  function FitAll(texts: seq<string>, budget: int): seq<string> {
    seq(|texts|, i requires 0 <= i < |texts| => Fit(texts[i], budget))
  }

  /** The cut forms of the texts over budget, in order. */
  function CutTexts(texts: seq<string>, budget: int): seq<string> {
    if texts == [] then []
    else CutTexts(texts[..|texts| - 1], budget) + if Count(texts[|texts| - 1]) > budget then [FirstWords(texts[|texts| - 1], budget)] else []
  }

  /** What is sent of a text: all of it, untouched, when it is within the budget; else as many of its first words as the budget allows. */
  lemma SentExactly(text: string, budget: int)
    ensures Count(text) <= budget ==> Fit(text, budget) == text
    ensures Count(text) > budget ==> Fields(Fit(text, budget)) == Fields(text)[..Max(0, budget)]
    ensures Count(text) > budget ==> Fit(text, budget) == JoinWords(Fields(Fit(text, budget)))
  {
    hide Fields;
    if Count(text) > budget {
      FieldsOfJoin(Fields(text)[..Max(0, budget)]);
    }
  }

  /** The texts reported as truncated are the sent forms of exactly those over budget, in order. */
  lemma {:induction false} CutTextsAre(texts: seq<string>, budget: int) returns (idx: seq<nat>)
    ensures Picks(idx, |texts|, (k: nat) => k < |texts| && Count(texts[k]) > budget)
    ensures |CutTexts(texts, budget)| == |idx|
    ensures forall i :: 0 <= i < |idx| ==> idx[i] < |texts| && CutTexts(texts, budget)[i] == Fit(texts[idx[i]], budget)
    decreases |texts|
  {
    hide Count, FirstWords, Picks;
    if texts == [] {
      idx := [];
      NothingPicked(0, (k: nat) => k < |texts| && Count(texts[k]) > budget);
    } else {
      var n := |texts| - 1;
      idx := CutTextsAre(texts[..n], budget);
      assert forall k: nat :: k < n ==> texts[..n][k] == texts[k];
      var over := (k: nat) => k < |texts| && Count(texts[k]) > budget;
      SamePicks(idx, n, (k: nat) => k < |texts[..n]| && Count(texts[..n][k]) > budget, over);
      PicksNext(idx, n, over);
      if over(n) {
        idx := idx + [n];
      }
    }
  }

  function Tokens(texts: seq<string>): nat {
    if texts == [] then 0 else Tokens(texts[..|texts| - 1]) + Count(texts[|texts| - 1])
  }

  predicate Fits(batch: seq<string>, budget: int, cap: int) {
    Tokens(batch) <= budget && |batch| <= cap
  }

  lemma {:induction false} FitCount(text: string, budget: int)
    ensures budget >= 0 ==> Count(Fit(text, budget)) <= budget
  {
    if Count(text) > budget {
      FieldsOfJoin(Fields(text)[..if budget < 0 then 0 else budget]);
    }
  }

  /** A batch could not have taken the text that starts the next one. */
  predicate Tight(batch: seq<string>, next: seq<string>, budget: int, cap: int) {
    next != [] && !Fits(batch + [next[0]], budget, cap)
  }

  predicate Greedy(batches: seq<seq<string>>, budget: int, cap: int) {
    forall i, j :: 0 <= i < |batches| && j == i + 1 && j < |batches| ==> Tight(batches[i], batches[j], budget, cap)
  }

  predicate AllFit(batches: seq<seq<string>>, budget: int, cap: int) {
    forall i :: 0 <= i < |batches| ==> Fits(batches[i], budget, cap)
  }

  predicate Sized(batches: seq<seq<string>>, cap: int) {
    forall i :: 0 <= i < |batches| ==> batches[i] != [] && |batches[i]| <= cap
  }

  predicate Weighed(batches: seq<seq<string>>, budget: int) {
    forall i :: 0 <= i < |batches| ==> Tokens(batches[i]) <= budget
  }

  /** The loop's invariant: closed batches, the open batch, and the texts both hold. */
  ghost predicate Planned(batches: seq<seq<string>>, cur: seq<string>, curTokens: nat, sent: seq<string>, budget: int, cap: int) {
    && Flatten(batches) + cur == sent && curTokens == Tokens(cur)
    && (cur == [] ==> batches == [])
    && (cap >= 1 ==> |cur| <= cap && Sized(batches, cap))
    && (budget >= 0 ==> Tokens(cur) <= budget && Weighed(batches, budget))
    && (cap >= 1 && budget >= 0 ==> Greedy(batches, budget, cap) && (batches != [] ==> Tight(batches[|batches| - 1], cur, budget, cap)))
  }

  lemma TokensSnoc(cur: seq<string>, text: string)
    ensures Tokens(cur + [text]) == Tokens(cur) + Count(text)
  {
    hide Fields;
    assert (cur + [text])[..|cur|] == cur;
  }

  lemma GreedySnoc(batches: seq<seq<string>>, cur: seq<string>, budget: int, cap: int)
    requires Greedy(batches, budget, cap) && (batches != [] ==> Tight(batches[|batches| - 1], cur, budget, cap))
    ensures Greedy(batches + [cur], budget, cap)
  {
    hide Tight;
  }

  /** Closing the open batch before a text that does not fit. */
  lemma Closed(batches: seq<seq<string>>, cur: seq<string>, sent: seq<string>, text: string, budget: int, cap: int)
    requires Planned(batches, cur, Tokens(cur), sent, budget, cap) && (budget >= 0 ==> Count(text) <= budget)
    requires (cur != [] && Tokens(cur) + Count(text) > budget) || |cur| >= cap
    ensures Planned(batches + [cur], [text], Count(text), sent + [text], budget, cap)
  {
    hide Tokens, Flatten, Fields, Count, Greedy, Tight, Fits, Sized, Weighed;
    TokensOne(text);
    FlattenSnoc(batches, cur);
    assert Flatten(batches + [cur]) + [text] == sent + [text];
    if cap >= 1 {
      SizedSnoc(batches, cur, cap);
    }
    if budget >= 0 {
      WeighedSnoc(batches, cur, budget);
    }
    if cap >= 1 && budget >= 0 {
      GreedySnoc(batches, cur, budget, cap);
      ClosedTight(cur, text, budget, cap);
    }
  }

  lemma TokensOne(text: string)
    ensures Tokens([text]) == Count(text)
  {
    TokensSnoc([], text);
    assert [] + [text] == [text];
  }

  lemma SizedSnoc(batches: seq<seq<string>>, cur: seq<string>, cap: int)
    requires Sized(batches, cap) && cur != [] && |cur| <= cap
    ensures Sized(batches + [cur], cap)
  {
  }

  lemma WeighedSnoc(batches: seq<seq<string>>, cur: seq<string>, budget: int)
    requires Weighed(batches, budget) && Tokens(cur) <= budget
    ensures Weighed(batches + [cur], budget)
  {
    hide Tokens;
  }

  lemma ClosedTight(cur: seq<string>, text: string, budget: int, cap: int)
    requires Tokens(cur) + Count(text) > budget || |cur| >= cap
    ensures Tight(cur, [text], budget, cap)
  {
    TokensSnoc(cur, text);
  }

  /** Adding a text that fits to the open batch. */
  lemma Extended(batches: seq<seq<string>>, cur: seq<string>, sent: seq<string>, text: string, budget: int, cap: int)
    requires Planned(batches, cur, Tokens(cur), sent, budget, cap) && (budget >= 0 ==> Count(text) <= budget)
    requires (cur == [] || Tokens(cur) + Count(text) <= budget) && |cur| < cap
    ensures Planned(batches, cur + [text], Tokens(cur) + Count(text), sent + [text], budget, cap)
  {
    hide Flatten, Fields, Count, Greedy, Fits, Tokens, Sized, Weighed, Tight;
    TokensSnoc(cur, text);
    TokensNone();
    if batches != [] && cap >= 1 && budget >= 0 {
      TightMore(batches[|batches| - 1], cur, text, budget, cap);
    }
    AppendRegroups(Flatten(batches), cur, text);
  }

  lemma AppendRegroups(a: seq<string>, b: seq<string>, x: string)
    ensures a + (b + [x]) == a + b + [x]
  {
  }

  lemma TightMore(batch: seq<string>, cur: seq<string>, text: string, budget: int, cap: int)
    requires Tight(batch, cur, budget, cap)
    ensures Tight(batch, cur + [text], budget, cap)
  {
    hide Fits;
  }

  lemma TokensNone()
    ensures Tokens([]) == 0
  {
  }

  /**
   * PlanBatches: order kept and no text lost; the cap and the budget hold exactly when they can
   * hold at all; and no batch has room for the start of the next.
   */
  method PlanBatches(texts: seq<string>, ctxBudget: int, batchSize: int) returns (batches: seq<seq<string>>, truncated: seq<string>)
    ensures Flatten(batches) == FitAll(texts, ctxBudget) && truncated == CutTexts(texts, ctxBudget)
    ensures (forall i :: 0 <= i < |batches| ==> |batches[i]| <= batchSize) <==> batchSize >= 1 || texts == []
    ensures Weighed(batches, ctxBudget) <==> ctxBudget >= 0 || texts == []
    ensures batchSize >= 1 ==> forall i :: 0 <= i < |batches| ==> batches[i] != []
    ensures batchSize >= 1 && ctxBudget >= 0 ==> Greedy(batches, ctxBudget, batchSize)
  {
    hide Fields, Greedy, FirstWords, Planned, Count, Weighed, Tokens, Flatten;
    batches, truncated := [], [];
    var cur: seq<string> := [];
    var curTokens: nat := 0;
    PlanBegins(ctxBudget, batchSize);
    assert texts[..0] == [] && FitAll([], ctxBudget) == [];
    for k := 0 to |texts|
      invariant Planned(batches, cur, curTokens, FitAll(texts[..k], ctxBudget), ctxBudget, batchSize)
      invariant truncated == CutTexts(texts[..k], ctxBudget)
    {
      var text := texts[k];
      assert texts[..k + 1][..k] == texts[..k];
      assert FitAll(texts[..k + 1], ctxBudget) == FitAll(texts[..k], ctxBudget) + [Fit(text, ctxBudget)];
      FitCount(text, ctxBudget);
      PlannedTokens(batches, cur, curTokens, FitAll(texts[..k], ctxBudget), ctxBudget, batchSize);
      var t := Count(text);
      if t > ctxBudget {
        text := SplitWordsTruncate(text, ctxBudget);
        t := Count(text);
        truncated := truncated + [text];
      }
      if (|cur| > 0 && curTokens + t > ctxBudget) || |cur| >= batchSize {
        Closed(batches, cur, FitAll(texts[..k], ctxBudget), text, ctxBudget, batchSize);
        batches := batches + [cur];
        cur, curTokens := [], 0;
        assert [] + [text] == [text];
      } else {
        Extended(batches, cur, FitAll(texts[..k], ctxBudget), text, ctxBudget, batchSize);
      }
      cur := cur + [text];
      curTokens := curTokens + t;
    }
    assert texts[..|texts|] == texts;
    PlannedTokens(batches, cur, curTokens, FitAll(texts, ctxBudget), ctxBudget, batchSize);
    PlanEnds(batches, cur, FitAll(texts, ctxBudget), ctxBudget, batchSize);
    if |cur| > 0 {
      batches := batches + [cur];
    }
  }

  lemma PlanBegins(budget: int, cap: int)
    ensures Planned([], [], 0, [], budget, cap)
  {
  }

  lemma PlannedTokens(batches: seq<seq<string>>, cur: seq<string>, curTokens: nat, sent: seq<string>, budget: int, cap: int)
    requires Planned(batches, cur, curTokens, sent, budget, cap)
    ensures curTokens == Tokens(cur)
  {
  }

  lemma PlanEnds(batches: seq<seq<string>>, cur: seq<string>, sent: seq<string>, budget: int, cap: int)
    requires Planned(batches, cur, Tokens(cur), sent, budget, cap)
    ensures var out := if cur != [] then batches + [cur] else batches;
            && Flatten(out) == sent
            && ((forall i :: 0 <= i < |out| ==> |out[i]| <= cap) <==> cap >= 1 || sent == [])
            && (Weighed(out, budget) <==> budget >= 0 || sent == [])
            && (cap >= 1 ==> forall i :: 0 <= i < |out| ==> out[i] != [])
            && (cap >= 1 && budget >= 0 ==> Greedy(out, budget, cap))
  {
    hide Tokens, Tight;
    if cur == [] {
      assert Flatten(batches) + cur == sent;
    } else {
      FlattenSnoc(batches, cur);
      hide Flatten;
      var out := batches + [cur];
      assert out[|batches|] == cur;
      if cap >= 1 && budget >= 0 {
        GreedySnoc(batches, cur, budget, cap);
      }
      hide Greedy;
    }
  }

  // ---- no plan has fewer batches --------------------------------------------

  /** How many texts the first k batches hold. */
  function Reach(parts: seq<seq<string>>, k: nat): nat
    requires k <= |parts|
  {
    |Flatten(parts[..k])|
  }

  lemma ReachStep(parts: seq<seq<string>>, k: nat)
    requires k < |parts|
    ensures Reach(parts, k + 1) == Reach(parts, k) + |parts[k]|
    ensures Flatten(parts[..k + 1]) == Flatten(parts[..k]) + parts[k]
  {
    assert parts[..k + 1][..k] == parts[..k];
  }

  lemma {:induction false} FlattenPrefix(parts: seq<seq<string>>, k: nat)
    requires k <= |parts|
    ensures Flatten(parts[..k]) <= Flatten(parts)
    decreases |parts| - k
  {
    if k == |parts| {
      assert parts[..k] == parts;
    } else {
      FlattenPrefix(parts, k + 1);
      ReachStep(parts, k);
    }
  }

  /** Batch k is the stretch of texts between two reaches. */
  lemma BatchIsSlice(parts: seq<seq<string>>, k: nat)
    requires k < |parts|
    ensures Reach(parts, k) <= Reach(parts, k + 1) <= |Flatten(parts)|
    ensures parts[k] == Flatten(parts)[Reach(parts, k)..Reach(parts, k + 1)]
  {
    ReachStep(parts, k);
    FlattenPrefix(parts, k + 1);
    var f := Flatten(parts[..k]);
    assert Flatten(parts)[..Reach(parts, k + 1)] == f + parts[k];
  }

  lemma {:induction false} TokensAppend(a: seq<string>, b: seq<string>)
    ensures Tokens(a + b) == Tokens(a) + Tokens(b)
    decreases |b|
  {
    if b == [] {
      assert a + b == a;
    } else {
      assert (a + b)[..|a + b| - 1] == a + b[..|b| - 1];
      TokensAppend(a, b[..|b| - 1]);
    }
  }

  /** A wider stretch of texts is no lighter. */
  lemma StretchFits(all: seq<string>, a: nat, b: nat, c: nat, d: nat, budget: int, cap: int)
    requires a <= b <= c <= d <= |all| && Fits(all[a..d], budget, cap)
    ensures Fits(all[b..c], budget, cap)
  {
    assert all[a..d] == all[a..b] + (all[b..c] + all[c..d]);
    TokensAppend(all[a..b], all[b..c] + all[c..d]);
    TokensAppend(all[b..c], all[c..d]);
  }

  /** Greedy stays ahead: its first k batches hold at least as many texts as anyone's first k. */
  lemma {:induction false} StaysAhead(batches: seq<seq<string>>, other: seq<seq<string>>, budget: int, cap: int, k: nat)
    requires Flatten(batches) == Flatten(other) && Greedy(batches, budget, cap) && AllFit(other, budget, cap)
    requires k <= |batches| && k <= |other|
    ensures Reach(batches, k) >= Reach(other, k)
  {
    hide Greedy, AllFit;
    if k == 0 {
    } else {
      StaysAhead(batches, other, budget, cap, k - 1);
      BatchIsSlice(batches, k - 1);
      BatchIsSlice(other, k - 1);
      if k < |batches| {
        GreedyStep(batches, other, budget, cap, k - 1);
      } else {
        assert batches[..k] == batches;
        FlattenPrefix(other, k);
      }
    }
  }

  lemma SliceOneMore<T>(all: seq<T>, a: nat, b: nat, c: nat)
    requires a <= b < c <= |all|
    ensures all[a..b] + [all[b..c][0]] == all[a..b + 1]
  {
  }

  lemma TightAt(batches: seq<seq<string>>, budget: int, cap: int, k: nat)
    requires Greedy(batches, budget, cap) && k + 1 < |batches|
    ensures Tight(batches[k], batches[k + 1], budget, cap)
  {
  }

  lemma FitAt(batches: seq<seq<string>>, budget: int, cap: int, k: nat)
    requires AllFit(batches, budget, cap) && k < |batches|
    ensures Fits(batches[k], budget, cap)
  {
  }

  lemma GreedyStep(batches: seq<seq<string>>, other: seq<seq<string>>, budget: int, cap: int, k: nat)
    requires Flatten(batches) == Flatten(other) && Greedy(batches, budget, cap) && AllFit(other, budget, cap)
    requires k + 1 < |batches| && k < |other| && Reach(batches, k) >= Reach(other, k)
    ensures Reach(batches, k + 1) >= Reach(other, k + 1)
  {
    hide Fits, Reach, Flatten, Greedy, AllFit, Tokens, Count, Fields;
    TightAt(batches, budget, cap, k);
    FitAt(other, budget, cap, k);
    BatchIsSlice(batches, k);
    BatchIsSlice(batches, k + 1);
    BatchIsSlice(other, k);
    var all := Flatten(batches);
    var from, to := Reach(batches, k), Reach(batches, k + 1);
    SliceOneMore(all, from, to, Reach(batches, k + 2));
    assert batches[k] + [batches[k + 1][0]] == all[from..to + 1];
    if to < Reach(other, k + 1) {
      StretchFits(all, Reach(other, k), from, to + 1, Reach(other, k + 1), budget, cap);
      assert false;
    }
  }

  /** The fewest batches of any order-preserving partition that respects the budget and the cap. */
  lemma FewestBatches(batches: seq<seq<string>>, other: seq<seq<string>>, budget: int, cap: int)
    requires Flatten(batches) == Flatten(other) && Greedy(batches, budget, cap) && AllFit(other, budget, cap)
    requires batches != [] ==> batches[0] != []
    ensures |batches| <= |other|
  {
    hide Greedy, AllFit, Flatten;
    if |batches| > |other| {
      var n := |other|;
      NoEmptyBatch(batches, budget, cap, n);
      BatchIsSlice(batches, n);
      ReachStep(batches, n);
      assert other[..n] == other;
      StaysAhead(batches, other, budget, cap, n);
      assert false;
    }
  }

  lemma NoEmptyBatch(batches: seq<seq<string>>, budget: int, cap: int, n: nat)
    requires Greedy(batches, budget, cap) && n < |batches| && batches[0] != []
    ensures batches[n] != []
  {
    if n > 0 {
      assert Tight(batches[n - 1], batches[n], budget, cap);
    }
  }

  // ---- vectors --------------------------------------------------------------

  datatype EmbeddingRow<V> = EmbeddingRow(chunkId: string, vector: V)

  /** One batch's rows, from the running offset. */
  function BatchRows<V>(ids: seq<string>, offset: nat, vectors: seq<V>): seq<EmbeddingRow<V>> {
    var n := if offset + |vectors| <= |ids| then |vectors| else if offset <= |ids| then |ids| - offset else 0;
    seq(n, j requires 0 <= j < n => EmbeddingRow(ids[offset + j], vectors[j]))
  }

  function RowsFor<V>(ids: seq<string>, batches: seq<seq<string>>, vectors: seq<seq<V>>): seq<EmbeddingRow<V>>
    requires |vectors| == |batches|
  {
    if batches == [] then []
    else
      var n := |batches| - 1;
      RowsFor(ids, batches[..n], vectors[..n]) + BatchRows(ids, |Flatten(batches[..n])|, vectors[n])
  }

  method AssembleEmbeddingRows<V>(ids: seq<string>, batches: seq<seq<string>>, vectorsByBatch: seq<seq<V>>) returns (rows: seq<EmbeddingRow<V>>)
    requires |vectorsByBatch| == |batches|
    ensures rows == RowsFor(ids, batches, vectorsByBatch)
  {
    rows := [];
    var offset := 0;
    for i := 0 to |batches|
      invariant offset == |Flatten(batches[..i])| && rows == RowsFor(ids, batches[..i], vectorsByBatch[..i])
    {
      var vecs := vectorsByBatch[i];
      assert batches[..i + 1][..i] == batches[..i] && vectorsByBatch[..i + 1][..i] == vectorsByBatch[..i];
      ghost var before := rows;
      for j := 0 to |vecs|
        invariant rows == before + BatchRows(ids, offset, vecs[..j])
      {
        if offset + j < |ids| {
          rows := rows + [EmbeddingRow(ids[offset + j], vecs[j])];
        }
        assert before + BatchRows(ids, offset, vecs[..j + 1])
               == before + BatchRows(ids, offset, vecs[..j]) + if offset + j < |ids| then [EmbeddingRow(ids[offset + j], vecs[j])] else [];
      }
      assert vecs[..|vecs|] == vecs;
      offset := offset + |batches[i]|;
    }
    assert batches[..|batches|] == batches && vectorsByBatch[..|batches|] == vectorsByBatch;
  }

  /** Row r pairs the j-th vector of batch i with the id that many places after the batch's start. */
  ghost predicate RowFrom<V(!new)>(ids: seq<string>, batches: seq<seq<string>>, vectors: seq<seq<V>>, r: EmbeddingRow<V>, i: nat, j: nat) {
    && i < |batches| == |vectors| && j < |vectors[i]| && |Flatten(batches[..i])| + j < |ids|
    && r == EmbeddingRow(ids[|Flatten(batches[..i])| + j], vectors[i][j])
  }

  /** Whatever number of vectors each batch got: a row for each of them that has an id, and no other row. */
  lemma {:induction false} RowsExactly<V(!new)>(ids: seq<string>, batches: seq<seq<string>>, vectors: seq<seq<V>>, r: EmbeddingRow<V>)
    requires |vectors| == |batches|
    ensures r in RowsFor(ids, batches, vectors) <==> exists i: nat, j: nat :: RowFrom(ids, batches, vectors, r, i, j)
    decreases |batches|
  {
    hide BatchRows, RowFrom;
    if batches == [] {
      NoRow(ids, vectors, r);
    } else {
      var n := |batches| - 1;
      RowsExactly(ids, batches[..n], vectors[..n], r);
      RowsLast(ids, batches, vectors);
      hide RowsFor;
      BatchRowIs(ids, batches, vectors, r);
      forall i: nat, j: nat | i < n ensures RowFrom(ids, batches, vectors, r, i, j) <==> RowFrom(ids, batches[..n], vectors[..n], r, i, j) {
        EarlierRow(ids, batches, vectors, r, i, j);
      }
      forall i: nat, j: nat | i >= n && RowFrom(ids, batches[..n], vectors[..n], r, i, j) ensures false {
        RowBounds(ids, batches[..n], vectors[..n], r, i, j);
      }
      forall i: nat, j: nat | i > n && RowFrom(ids, batches, vectors, r, i, j) ensures false {
        RowBounds(ids, batches, vectors, r, i, j);
      }
    }
  }

  lemma NoRow<V(!new)>(ids: seq<string>, vectors: seq<seq<V>>, r: EmbeddingRow<V>)
    ensures forall i: nat, j: nat :: !RowFrom(ids, [], vectors, r, i, j)
  {
  }

  lemma RowBounds<V(!new)>(ids: seq<string>, batches: seq<seq<string>>, vectors: seq<seq<V>>, r: EmbeddingRow<V>, i: nat, j: nat)
    requires RowFrom(ids, batches, vectors, r, i, j)
    ensures i < |batches|
  {
  }

  lemma EarlierRow<V(!new)>(ids: seq<string>, batches: seq<seq<string>>, vectors: seq<seq<V>>, r: EmbeddingRow<V>, i: nat, j: nat)
    requires |vectors| == |batches| > 0 && i < |batches| - 1
    ensures var n := |batches| - 1; RowFrom(ids, batches, vectors, r, i, j) <==> RowFrom(ids, batches[..n], vectors[..n], r, i, j)
  {
    hide Flatten;
    var n := |batches| - 1;
    assert batches[..n][..i] == batches[..i];
  }

  lemma BatchRowIs<V(!new)>(ids: seq<string>, batches: seq<seq<string>>, vectors: seq<seq<V>>, r: EmbeddingRow<V>)
    requires |vectors| == |batches| > 0
    ensures var n := |batches| - 1;
            r in BatchRows(ids, |Flatten(batches[..n])|, vectors[n]) <==> exists j: nat :: RowFrom(ids, batches, vectors, r, n, j)
  {
    hide Flatten;
    var n := |batches| - 1;
    var rows := BatchRows(ids, |Flatten(batches[..n])|, vectors[n]);
    if r in rows {
      var j :| 0 <= j < |rows| && rows[j] == r;
      assert RowFrom(ids, batches, vectors, r, n, j);
    }
    if j: nat :| RowFrom(ids, batches, vectors, r, n, j) {
      assert rows[j] == r;
    }
  }

  /** With one vector per text, chunk i is paired with exactly the vector of text i. */
  lemma {:induction false} EachChunkItsVector<V>(ids: seq<string>, batches: seq<seq<string>>, vectors: seq<seq<V>>)
    requires |vectors| == |batches| && |Flatten(batches)| <= |ids|
    requires forall i :: 0 <= i < |batches| ==> |vectors[i]| == |batches[i]|
    ensures |Flatten(vectors)| == |Flatten(batches)| == |RowsFor(ids, batches, vectors)|
    ensures forall i :: 0 <= i < |Flatten(batches)| ==> RowsFor(ids, batches, vectors)[i] == EmbeddingRow(ids[i], Flatten(vectors)[i])
    decreases |batches|
  {
    if batches == [] {
    } else {
      var n := |batches| - 1;
      EachChunkItsVector(ids, batches[..n], vectors[..n]);
      RowsLast(ids, batches, vectors);
      FlattenLast(batches);
      FlattenLast(vectors);
      hide Flatten, BatchRows, RowsFor;
      RowsOfBatch(ids, |Flatten(batches[..n])|, vectors[n]);
      PairedAppend(ids, RowsFor(ids, batches[..n], vectors[..n]), Flatten(vectors[..n]),
                   BatchRows(ids, |Flatten(batches[..n])|, vectors[n]), vectors[n]);
    }
  }

  lemma RowsLast<V>(ids: seq<string>, batches: seq<seq<string>>, vectors: seq<seq<V>>)
    requires |vectors| == |batches| > 0
    ensures var n := |batches| - 1;
            RowsFor(ids, batches, vectors) == RowsFor(ids, batches[..n], vectors[..n]) + BatchRows(ids, |Flatten(batches[..n])|, vectors[n])
  {
  }

  lemma PairedAppend<V>(ids: seq<string>, rows: seq<EmbeddingRow<V>>, vecs: seq<V>, more: seq<EmbeddingRow<V>>, moreVecs: seq<V>)
    requires |rows| == |vecs| && |more| == |moreVecs| && |rows| + |more| <= |ids|
    requires forall i :: 0 <= i < |rows| ==> rows[i] == EmbeddingRow(ids[i], vecs[i])
    requires forall j :: 0 <= j < |more| ==> more[j] == EmbeddingRow(ids[|rows| + j], moreVecs[j])
    ensures forall i :: 0 <= i < |rows + more| ==> (rows + more)[i] == EmbeddingRow(ids[i], (vecs + moreVecs)[i])
  {
    forall i | 0 <= i < |rows + more| ensures (rows + more)[i] == EmbeddingRow(ids[i], (vecs + moreVecs)[i]) {
      if i >= |rows| {
        assert more[i - |rows|] == EmbeddingRow(ids[i], moreVecs[i - |rows|]);
      }
    }
  }

  lemma FlattenLast<T>(parts: seq<seq<T>>)
    requires parts != []
    ensures Flatten(parts) == Flatten(parts[..|parts| - 1]) + parts[|parts| - 1]
  {
  }

  lemma RowsOfBatch<V>(ids: seq<string>, offset: nat, vecs: seq<V>)
    requires offset + |vecs| <= |ids|
    ensures |BatchRows(ids, offset, vecs)| == |vecs|
    ensures forall j :: 0 <= j < |vecs| ==> BatchRows(ids, offset, vecs)[j] == EmbeddingRow(ids[offset + j], vecs[j])
  {
  }
}
