/** Splitter configuration and its defaults. */
module Configs {
  import opened Lexicons

  const DEFAULT_CHUNK_SIZE: int := 512
  const DEFAULT_CHUNK_OVERLAP: int := 80
  const DEFAULT_SEPARATORS: seq<string> := ["\n\n", "\n", "。"]

  datatype Config = Config(
    chunkSize: int,
    chunkOverlap: int,
    separators: seq<string>,
    strategy: string,
    tokenLimit: int,
    languages: seq<string>)

  /** ensureDefaults: fills the gaps, honours the token limit, caps the overlap at half a chunk. */
  function EnsureDefaults(lex: Lexicon, cfg: Config): (r: Config)
    ensures r.chunkSize >= 1 && 0 <= r.chunkOverlap && 2 * r.chunkOverlap <= r.chunkSize && r.separators != []
    ensures cfg.chunkSize > 0 ==> r.chunkSize <= cfg.chunkSize
  {
    var size := if cfg.chunkSize <= 0 then DEFAULT_CHUNK_SIZE else cfg.chunkSize;
    var overlap := if cfg.chunkOverlap <= 0 then DEFAULT_CHUNK_OVERLAP else cfg.chunkOverlap;
    var separators := if cfg.separators == [] then DEFAULT_SEPARATORS else cfg.separators;
    var budget := lex.charBudget(cfg.tokenLimit, cfg.languages);
    var capped := if cfg.tokenLimit > 0 && 0 < budget < size then budget else size;
    cfg.(chunkSize := capped,
         chunkOverlap := if overlap > capped / 2 then capped / 2 else overlap,
         separators := separators)
  }

  /** A setting is kept as far as it is in range; otherwise it gets its default, or the nearest value in range. */
  lemma DefaultsFill(lex: Lexicon, cfg: Config)
    ensures var r, budget := EnsureDefaults(lex, cfg), lex.charBudget(cfg.tokenLimit, cfg.languages);
            && r.strategy == cfg.strategy && r.tokenLimit == cfg.tokenLimit && r.languages == cfg.languages
            && r.separators == (if |cfg.separators| > 0 then cfg.separators else ["\n\n", "\n", "。"])
            && r.chunkOverlap <= (if cfg.chunkOverlap > 0 then cfg.chunkOverlap else 80)
            && (r.chunkOverlap < r.chunkSize / 2 ==> r.chunkOverlap == if cfg.chunkOverlap > 0 then cfg.chunkOverlap else 80)
            && (cfg.tokenLimit <= 0 || budget <= 0 ==> r.chunkSize == if cfg.chunkSize > 0 then cfg.chunkSize else 512)
            && (cfg.tokenLimit > 0 && budget > 0 ==>
                  && r.chunkSize <= budget && (cfg.chunkSize > 0 ==> r.chunkSize <= cfg.chunkSize)
                  && (r.chunkSize < budget ==> r.chunkSize == if cfg.chunkSize > 0 then cfg.chunkSize else 512))
  {
  }

  /** Every entry point applies the defaults again; doing so twice changes nothing. */
  lemma DefaultsIdempotent(lex: Lexicon, cfg: Config)
    ensures EnsureDefaults(lex, EnsureDefaults(lex, cfg)) == EnsureDefaults(lex, cfg)
  {
  }
}
