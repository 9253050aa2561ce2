/** The tier chain: which tiers are tried for a text, and which one's chunks are used. */
module Strategy {
  import opened Text
  import opened Chunks
  import opened Lexicons
  import opened Configs
  import opened Merge
  import opened Lines
  import opened Validation
  import opened Profiles
  import opened HeadingTier
  import opened HeuristicTier
  import opened Coalesce
  import opened Sequences

  datatype Tier = ByHeading | ByHeuristic | Legacy

  /** SelectStrategy: the chain always ends in the legacy tier. */
  function SelectStrategy(lex: Lexicon, text: string): seq<Tier> {
    (if HeadingBackbone(Split(text)) then [ByHeading] else [])
    + (if lex.structuralMarkers(text) then [ByHeuristic] else [])
    + [Legacy]
  }

  /** resolveChainWithProfile: an unknown strategy means auto. */
  function Chain(lex: Lexicon, text: string, strategy: string): (chain: seq<Tier>)
    ensures chain != [] && chain[|chain| - 1] == Legacy && forall i :: 0 <= i < |chain| - 1 ==> chain[i] != Legacy
  {
    if strategy == "heading" then [ByHeading, Legacy]
    else if strategy == "heuristic" then [ByHeuristic, Legacy]
    else if strategy == "recursive" || strategy == "legacy" then [Legacy]
    else SelectStrategy(lex, text)
  }

  /** What the winning tier's chunks promise. */
  ghost predicate Usable(lex: Lexicon, text: string, out: seq<Chunk>) {
    && TierOk(text, out)
    && forall i :: 0 <= i < |out| ==> UnderGlobalCrumb(lex, text, out[i])
  }

  /** The legacy splitter's output. */
  ghost predicate LegacyOut(lex: Lexicon, text: string, cfg: Config, out: seq<Chunk>)
    requires lex.Valid()
  {
    exists units {:trigger SplitOk(lex, text, cfg, units, out)} :: SplitOk(lex, text, cfg, units, out)
  }

  /** One section per primary heading, coalesced; the legacy output when there is at most one section. */
  ghost predicate HeadingOut(lex: Lexicon, text: string, cfg: Config, out: seq<Chunk>)
    requires lex.Valid()
  {
    if DominantLevel(Split(text)) == 0 then LegacyOut(lex, text, cfg, out)
    else
      exists bounds, idx {:trigger HeadingScan.BoundsAre(Split(text), DominantLevel(Split(text)), |Split(text)|, bounds, idx)} ::
        && HeadingScan.BoundsAre(Split(text), DominantLevel(Split(text)), |Split(text)|, bounds, idx)
        && if |bounds| <= 1 then LegacyOut(lex, text, cfg, out) else CoalescedOut(lex, text, cfg, idx, out)
  }

  /** Each section split on its own, then coalesced. */
  ghost predicate CoalescedOut(lex: Lexicon, text: string, cfg: Config, idx: seq<nat>, out: seq<Chunk>)
    requires lex.Valid()
  {
    exists groups {:trigger SectionsSplit(lex, text, cfg, idx, groups)} ::
      && SectionsSplit(lex, text, cfg, idx, groups)
      && if |Flatten(groups)| <= 1 then out == Flatten(groups) else Coalesced(cfg.chunkSize, Flatten(groups), out)
  }

  /** Packed stretches between boundaries; the legacy output for a short text or one without boundaries. */
  ghost predicate HeuristicOut(lex: Lexicon, text: string, cfg: Config, out: seq<Chunk>)
    requires lex.Valid()
  {
    if |text| <= cfg.chunkSize || KeptBounds(lex.heuristicBounds(text, cfg.languages), ProtectedSpans.ProtectedRunes(lex, text)) == []
    then LegacyOut(lex, text, cfg, out)
    else PackedOut(lex, text, cfg, out)
  }

  ghost predicate PackedOut(lex: Lexicon, text: string, cfg: Config, out: seq<Chunk>)
    requires lex.Valid()
  {
    exists bounds, ps, groups {:trigger Chained(text, bounds, cfg, ps), PieceGroups(lex, text, cfg, ps, out, groups)} ::
      && PackBounds(bounds, |text|) && ps != [] && Chained(text, bounds, cfg, ps) && LastEnd(ps) == |text|
      && PieceGroups(lex, text, cfg, ps, out, groups)
      && BoundsExactly(text, lex.heuristicBounds(text, cfg.languages), ProtectedSpans.ProtectedRunes(lex, text), bounds)
  }

  ghost predicate TierOut(lex: Lexicon, tier: Tier, text: string, cfg: Config, out: seq<Chunk>)
    requires lex.Valid()
  {
    match tier
    case ByHeading => HeadingOut(lex, text, cfg, out)
    case ByHeuristic => HeuristicOut(lex, text, cfg, out)
    case Legacy => LegacyOut(lex, text, cfg, out)
  }

  method RunTier(lex: Lexicon, tier: Tier, text: string, cfg: Config) returns (out: seq<Chunk>)
    requires lex.Valid() && cfg == EnsureDefaults(lex, cfg) && text != ""
    ensures Usable(lex, text, out) && TierOut(lex, tier, text, cfg, out)
  {
    hide SplitOk, Complete, AllVerbatim, EnsureDefaults, HeadingScan.GlobalCrumb, HeadingScan.BoundsAre, Chained, SectionsSplit, Coalesced, Flatten,
         PackBounds, FromPieces, PieceGroups, BoundsExactly, KeptBounds, MergeFrom, Renumbered, Split, UnderGlobalCrumb,
         ProtectedSpans.ProtectedRunes, ProtectedSpans.Inside;
    match tier
    case ByHeading =>
      ghost var bounds, idx, groups, units;
      out, bounds, idx, groups, units := SplitByHeadings(lex, text, cfg);
      if DominantLevel(Split(text)) > 0 && |bounds| > 1 {
        assert CoalescedOut(lex, text, cfg, idx, out);
      } else {
        assert LegacyOut(lex, text, cfg, out);
      }
    case ByHeuristic =>
      ghost var bounds, pieces, groups, units;
      out, bounds, pieces, groups, units := SplitByHeuristics(lex, text, cfg);
      NoHeader(lex, text, out);
    case Legacy =>
      ghost var units;
      out, units := SplitText(lex, text, cfg);
      SplitIsTier(lex, text, cfg, units, out);
      InnerHeaders(lex, text, cfg, units, out);
      NoHeader(lex, text, out);
  }

  lemma NoHeader(lex: Lexicon, text: string, out: seq<Chunk>)
    requires TierOk(text, out) && forall i :: 0 <= i < |out| ==> out[i].contextHeader == ""
    ensures Usable(lex, text, out)
  {
  }

  datatype Diagnostics = Diagnostics(selected: Tier, chain: seq<Tier>, rejected: seq<(Tier, Verdict)>)

  /**
   * The tiers a strategy tries, in order: the named one and then legacy; for any other name first the
   * heading tier, exactly when there are three headings and more than one for every 200 lines, then the
   * heuristic tier, exactly when there are other structural markers, and legacy last.
   */
  predicate TiersTried(lex: Lexicon, text: string, strategy: string, chain: seq<Tier>) {
    if strategy == "heading" then chain == [ByHeading, Legacy]
    else if strategy == "heuristic" then chain == [ByHeuristic, Legacy]
    else if strategy in {"recursive", "legacy"} then chain == [Legacy]
    else
      && chain != [] && chain[|chain| - 1] == Legacy && (forall i, j :: 0 <= i < j < |chain| ==> chain[i] != chain[j])
      && (ByHeading in chain <==>
            HeadingTotal(Split(text), |Split(text)|) >= 3 && 200 * HeadingTotal(Split(text), |Split(text)|) > |Split(text)|)
      && (ByHeading in chain ==> chain[0] == ByHeading)
      && (ByHeuristic in chain <==> lex.structuralMarkers(text))
  }

  lemma ChainTried(lex: Lexicon, text: string, strategy: string)
    ensures TiersTried(lex, text, strategy, Chain(lex, text, strategy))
  {
    hide HeadingBackbone, Split, HeadingTotal;
    BackboneMeans(Split(text));
  }

  /** The tier's chunks draw this objection. */
  ghost predicate Objected(lex: Lexicon, text: string, cfg: Config, tier: Tier, v: Verdict)
    requires lex.Valid()
  {
    v != Accepted && exists out {:trigger TierOut(lex, tier, text, cfg, out)} ::
      TierOut(lex, tier, text, cfg, out) && Judged(out, |text|, cfg.chunkSize) == v
  }

  /** The selected tier is the first one accepted; when every one is rejected, the legacy tier. */
  ghost predicate DiagnosticsOk(lex: Lexicon, text: string, cfg: Config, out: seq<Chunk>, d: Diagnostics)
    requires lex.Valid()
  {
    && TiersTried(lex, text, cfg.strategy, d.chain) && |d.rejected| <= |d.chain|
    && (forall i :: 0 <= i < |d.rejected| ==>
          d.rejected[i].0 == d.chain[i] && Objected(lex, text, cfg, d.chain[i], d.rejected[i].1))
    && (if |d.rejected| < |d.chain| then
          d.selected == d.chain[|d.rejected|] && Judged(out, |text|, cfg.chunkSize) == Accepted
        else d.selected == Legacy)
    && TierOut(lex, d.selected, text, cfg, out)
  }

  const NO_SPLIT: Diagnostics := Diagnostics(Legacy, [], [])

  /** out is the split of the text by the tier that the diagnostics name. */
  ghost predicate ChosenSplit(lex: Lexicon, text: string, cfg: Config, out: seq<Chunk>, d: Diagnostics)
    requires lex.Valid()
  {
    if text == "" then out == [] && d == NO_SPLIT else DiagnosticsOk(lex, text, cfg, out, d)
  }

  /** SplitWithDiagnostics: whatever tier wins, nothing is lost and nothing is rewritten. */
  method SplitWithDiagnostics(lex: Lexicon, text: string, config: Config) returns (out: seq<Chunk>, diag: Diagnostics)
    requires lex.Valid()
    ensures Usable(lex, text, out)
    ensures ChosenSplit(lex, text, EnsureDefaults(lex, config), out, diag)
  {
    hide Usable, Judged, EnsureDefaults, TierOut, TiersTried, Chain;
    diag := NO_SPLIT;
    if text == "" {
      NothingToSplit(lex, EnsureDefaults(lex, config));
      return [], diag;
    }
    var cfg := EnsureDefaults(lex, config);
    DefaultsIdempotent(lex, config);
    var chain := Chain(lex, text, cfg.strategy);
    ChainTried(lex, text, cfg.strategy);
    diag := diag.(chain := chain);
    var lastOut: Option<seq<Chunk>> := None;
    for i := 0 to |chain|
      invariant diag.selected == Legacy && diag.chain == chain && |diag.rejected| == i
      invariant forall j :: 0 <= j < i ==> diag.rejected[j].0 == chain[j] && Objected(lex, text, cfg, chain[j], diag.rejected[j].1)
      invariant lastOut.Some? ==> Usable(lex, text, lastOut.value) && TierOut(lex, Legacy, text, cfg, lastOut.value)
    {
      var tier := chain[i];
      out := RunTier(lex, tier, text, cfg);
      var v := ValidateChunks(out, |text|, cfg.chunkSize);
      if v == Accepted {
        diag := diag.(selected := tier);
        return;
      }
      diag := diag.(rejected := diag.rejected + [(tier, v)]);
      if tier == Legacy && i == |chain| - 1 {
        lastOut := Some(out);
      }
    }
    if lastOut.Some? {
      out := lastOut.value;
      return;
    }
    out := RunTier(lex, Legacy, text, cfg);
  }

  lemma NothingToSplit(lex: Lexicon, cfg: Config)
    requires lex.Valid()
    ensures Usable(lex, "", []) && ChosenSplit(lex, "", cfg, [], NO_SPLIT)
  {
  }
}
