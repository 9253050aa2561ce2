# A verified model of lybrix ingestion

lybrix turns large documents into searchable chunks. A document is cut into page-range shards,
each shard is parsed by a worker that holds a lease on its database row, the parsed markdown is
stitched together, split into parent and child chunks, deduplicated and embedded, while a janitor
recovers what crashed workers leave behind. This project models those stages in Dafny and proves
what they promise.

**The chunker** (`Numbers`, `Text`, `Chunks`, `HeaderTracker`, `Lexicon`, `Config`, `ProtectedSpans`, `Separators`,
`Units`, `Overlap`, `Merge`, `MergeLaws`, `Lines`, `Hierarchy`, `HeadingScan`, `Profile`, `Coalesce`, `HeadingTier`, `HeuristicTier`,
`Validation`, `Strategy`, `ParentChild`). Text is a sequence of runes; byte offsets are computed
from the UTF-8 width of each rune. The central promise is `Chunks.Verbatim`: after its counted
synthetic prefix a chunk is exactly the source slice its offsets name. It is proved for separator
recursion, protected regions, overlap, table-header re-injection, section shifting, coalescing, and
the second split of parents that carry an injected header. The unit-level accumulator of the legacy
splitter is proved to refine a machine on offsets (`Merge.MergeRun`), and the three scans of the
overlap search to compute the minimum of one declarative order (`Overlap.BestCut`). What the machine does is
stated once more without it: why each chunk ends where it does (`Merge.EndsHaveReasons`), when a pending chunk is
closed (`MergeLaws.ClosedExactly`), and what the next one starts with (`MergeLaws.CarriedExactly`). What regular
expressions match is given by the fields of `Lexicons.Lexicon`; every theorem holds for all of them.

**The stages around it** (`Sequences`, `Sorting`, `PageMap`, `PageBlocks`, `Stitch`, `Batches`, `Dedupe`, `Sharding`,
`Ladder`): the per-line page map, embedding batches, dedupe and parent links, page-range sharding
and the retry ladder.

**The ingest protocol** (`Tables`, `Counters`, `Store`, `Protocol`, `RunCounters`, `Leases`,
`LateWorker`, `Recovery`, `Reopening`, `Scenes`, `RecoveryGap`, `LetterGap`, `ReopenGap`, `RecoveryExact`,
`Stream`, `Janitor`). The two tables are values with one function per transaction;
`ShardStore.Store` is the class whose methods perform them in place. `Protocol` is a transition
system over one clock in which every database transaction and every stream command is one step, so
a crash may fall between any two. A handler is kept apart from the stream entry it was delivered:
once it has claimed, it may finish, re-split or give up at any later time, also when the janitor has
long taken its entry away. `Protocol.After` gives the state of a run; the lease, counter and recovery
theorems hold for all runs, with any number of documents, rows, workers and stream entries.
`Protocol.Params` holds what an operator can check: the lease, how long a claim may come after the
delivery, how long a pass takes from reaping to reclaiming, the attempts per shard, and three things
that may go wrong around the pipeline (raw objects vanish, terminal documents are set to work again
with their rows kept, a pass fails between dropping a dead entry and writing its event).

## What the proofs found

- Which configurations keep every shard of a document at work within reach is settled exactly
  (`RecoveryExact.InReachExactly`): lease, claim delay and the time between reaping and reclaiming in
  one janitor pass together stay below the reclaim idle time of 1200 seconds; raw objects do not
  vanish or no document is reopened; and no pass fails with unwritten events, unless shards have a
  single attempt. For every configuration outside, a run is given that leaves a shard out of reach,
  and in it no job is queued but by the fan-out of the split. With a single attempt such a shard is
  in its last attempt, which the next reap and escalation fail (`RecoveryExact.LastAttemptFails`), so
  that shards are stranded for good exactly in the configurations outside with two attempts or more
  (`RecoveryExact.NeverStrandedExactly`). The comment at `internal/worker/janitor.go:210` speaks of a
  lease of 900 seconds alone; the default in `internal/config/config.go:216` is 600.
- A shard whose handler finds the source object gone is left running and later pending, with its job
  acknowledged and its document failed. The shards retry at `internal/api/documents.go:655-694`
  reopens the document and requeues only its failed rows (`ReopenGap.RetryStrands`). A retry strands
  exactly those shards of its document that were unrecoverable before (`Reopening.RetryStrandsExactly`).
- The DLQ event of a dropped entry is lost exactly when the pass fails after the entry has been
  acknowledged and before the events are written (`Protocol.LostExactly`), which one XADD that fails
  on a later entry is enough for (`Janitors.UnwrittenExactly`); the shard is then stranded if it had
  an attempt left (`LetterGap.LostLetterStrands`).
- Counters never fall behind the rows, and which transactions let them run ahead is known exactly
  (`Counters.StaysExact`): finishing a shard that has no row or is done already, claiming or
  finishing one that has failed, and re-splitting one that is done or failed.
- A resplit keeps the skipped parent in the total, so a document with exact counters never settles
  from then on, although every other row may be done (`Counters.BlockedStays`, `Counters.NeverSettles`).
- `Stitch` orders shards by index although re-split shards get later indices than the pages after
  them, so the pages it returns can run backwards (`Stitching.ResplitPagesRunBackwards`). Ranges keep
  them in order for all shard contents exactly when they follow each other in index order
  (`Stitching.OrderedExactly`); for given contents the condition is on what trimming leaves of each
  shard's pages (`Stitching.PagesOrderedExactly`).
- When a shard repeats the boundary heading, `Stitch` drops the shard's first line, which is the
  heading only when no other line comes before it (`Stitching.PreambleLost`).
- The dedupe never drops a parent that a surviving child refers to: every kept child of a
  materialised parent is linked, and no other child is (`Dedupe.ParentLinks`). The case of a dropped
  parent described at `internal/service/embedder.go:146` does not occur.
- `ChapterAlignedBounds` never reaches its fallback for a document with pages; for one without pages
  but with an outline it returns one shard on a page that does not exist.
- `FixedBounds` covers all pages exactly when the overlap is not negative or one window is enough.
- The first chunk of a document carries the breadcrumb in force at its start exactly unless the
  document opens with a named heading deeper than the primary level and its first section fits one
  chunk; then it carries none (`HeadingTier.FirstCrumbExactly`, `HeadingTier.MissingCrumb`). The primary
  level is the shallowest that occurs three times, so this takes three headings of one level after an
  opening heading of a deeper one (`HeadingTier.BareExactly`).
- Coalescing keeps chunks verbatim exactly when no chunk with an injected header is appended to
  another (`Coalesce.VerbatimExactly`), and that never happens, whatever the chunk size, although the
  guard at `internal/chunker/splitter.go:243` can emit a chunk that holds only an injected header: a
  blank unit ends every header, so the chunk before an injected one is really there
  (`Merge.AllApart`). All tiers are verbatim for all configurations (`Strategy.SplitWithDiagnostics`).
- The row that ends a table's header cannot start the next one. A table that follows another after one
  blank line is not tracked at all, so none of its later chunks gets its header, although
  `docs/prd.md:356` promises it (`HeaderTrackers.TrackedExactly`, `HeaderTrackers.SecondTableBare`).

## Model

| member | source | states |
|---|---|---|
| ProtectedSpans.Resolve | internal/chunker/protected.go:43-80 | The kept matches are sorted, disjoint and longest at their start, every match begins inside one of them, and these properties leave no choice |
| ProtectedSpans.InsertionSort | internal/chunker/protected.go:55-66 | The hand-written sort orders the matches by start and then by length, as a permutation |
| ProtectedSpans.KeptUnique | internal/chunker/protected.go:43-80 | Two span lists with the properties of the resolution are equal |
| ProtectedSpans.ToRunes | internal/chunker/protected.go:86-107 | One forward pass turns byte spans into exactly the rune spans they denote |
| Separators.SplitByCuts | internal/chunker/protected.go:154-198 | Separator splitting loses no text, leaves no empty part, and leaves a part above the budget only when no separator can cut it |
| Separators.SplitByRounds | internal/chunker/protected.go:154-198 | The recursion over the separators is what one gets by taking them in turn and cutting every part still above the budget at all occurrences of the separator |
| Separators.CutsHaveReasons | internal/chunker/protected.go:154-198 | Every cut is at an occurrence of a separator, in a stretch above the budget that no separator of higher priority cuts; a text within the budget is not cut |
| Units.CutPoint | internal/chunker/splitter.go:266-291 | The cut of an oversized text is after the last newline or space near the hard cap, else at the cap |
| Units.BuildUnits | internal/chunker/protected.go:206-283 | The units tile the text in rune offsets, tear no protected region within the hard cap, and are exactly its regions and the parts into which the separators cut the text between them |
| Units.AllUnitsExplained | internal/chunker/protected.go:206-283 | Every unit is a protected region, a piece of one above the hard cap up to its next cut point, or plain text that ends at the next region, at the end of the text or where a separator has a reason to cut; units above the budget can be cut by no separator |
| Overlap.FindBoundary | internal/chunker/splitter.go:463-542 | The three scans return the eligible boundary with the lowest priority number and then the earliest position |
| Overlap.WinnerUnique | internal/chunker/splitter.go:463-542 | Priority and position determine a boundary, so that minimum is unique |
| Overlap.Window | internal/chunker/splitter.go:412-449 | The window is the last runes of the accumulated source text, and no synthetic ones |
| Overlap.TrimPrefix | internal/chunker/splitter.go:546-569 | Dropping a prefix keeps a contiguous tiling with exact positions |
| Overlap.ComputeOverlap | internal/chunker/splitter.go:366-404 | The overlap is a non-blank source suffix no longer than the configured overlap and what the next unit leaves over, starting at the best boundary, or nothing |
| Configs.DefaultsIdempotent | internal/chunker/splitter.go:148-173 | Applying the defaults again at an inner entry point changes nothing |
| Configs.DefaultsFill | internal/chunker/splitter.go:148-173 | A setting is kept as far as it is in range, and otherwise gets its default or the nearest value in range |
| Merge.BuildChunk | internal/chunker/splitter.go:300-329 | The built chunk is the header followed by the source slice, with the header counted as its synthetic prefix |
| Merge.Flush | internal/chunker/splitter.go:257-262 | Flushing emits the accumulator as one chunk unless it is blank; nothing before the position is left uncovered |
| Merge.ChopOversize | internal/chunker/splitter.go:266-291 | The pieces of an oversized unit tile it, each at a preferred cut point within the hard cap |
| Merge.AllApart | internal/chunker/splitter.go:178-253 | For all chunk sizes, a chunk with an injected header never both touches its predecessor and fits beside it |
| Merge.InjectedOfThisTable | internal/chunker/splitter.go:202-241 | A header injected before a unit is the header of the table that the unit is in |
| Merge.Overflow | internal/chunker/splitter.go:208-241 | On overflow the pending text is flushed, the overlap carried and shrunk only as far as the header and unit need, and the header re-injected unless redundant |
| Merge.MergeUnits | internal/chunker/splitter.go:178-253 | With the headers of the tracker, the accumulator refines the offset machine; chunks are verbatim, lose nothing, end at allowed cuts and respect the size cap |
| Merge.AllowedIsSafe | internal/chunker/splitter.go:127-142 | An allowed chunk end is never strictly inside a protected region of at most 7500 runes |
| Merge.SplitText | internal/chunker/splitter.go:127-142 | For all configurations every chunk is verbatim, within the budget or no longer than one unit within the hard cap, ends for one of the named reasons and in no protected region, is blank only as a piece of an oversized unit, and is apart from its predecessor if it carries an injected header; no non-blank rune is lost |
| Merge.EndsHaveReasons | internal/chunker/splitter.go:127-142 | A chunk ends at the end of the text, where a protected region starts or ends, where a separator cuts a part above the budget, or at a cut point of a piece above the hard cap |
| MergeLaws.ClosedExactly | internal/chunker/splitter.go:178-253 | In every run a pending text stays open exactly when no table ends and the unit, with the header it calls for, fits the budget and the hard cap; otherwise it becomes a chunk unless it is blank, and nothing of it is carried over the end of a table |
| MergeLaws.CarriedExactly | internal/chunker/splitter.go:208-241 | After an overflow the next chunk starts behind the first of the best boundaries among the last runes that fit the overlap and the room beside the next unit; an active header that fits is put in front exactly when neither it nor its column names are there already and the unit is no row of another width, and overlap units go only to make room for it |
| HeaderTrackers.HeaderTracker.Update | internal/chunker/header_tracker.go:75-151 | The update changes the fields as the function of the state and the unit does, step by step in the order of the hooks |
| HeaderTrackers.HeaderOfThisTable | internal/chunker/header_tracker.go:75-151 | After any units an active header is that of the last table started, extended at most by its first row; since its start no prose has come and, that row aside, no blank line before the last unit and no row of another width |
| HeaderTrackers.NextUnitExactly | internal/chunker/header_tracker.go:75-151 | A tracked table goes on exactly unless a blank line came before the unit, prose resumes or the unit is a row of another width; a flush is asked for exactly when a row ends it; only an empty header is replaced, by its first row |
| HeaderTrackers.NoTableNoFlush | internal/chunker/header_tracker.go:75-91 | Where no table is tracked, no unit asks for a flush |
| HeaderTrackers.EndsTableMeans | internal/chunker/header_tracker.go:34-36 | A unit ends a table exactly when no pipe comes first in it after spaces |
| HeaderTrackers.EndsParagraphMeans | internal/chunker/header_tracker.go:225-228 | A unit ends a paragraph exactly when nothing but blanks follows a blank line at its end |
| HeaderTrackers.BlankClears | internal/chunker/header_tracker.go:92-101 | After a unit of whitespace no header is active |
| HeaderTrackers.StartsRedundant | internal/chunker/header_tracker.go:281-292 | A header that a unit has just started is contained in that unit and therefore not put before it |
| HeaderTrackers.TrackedExactly | internal/chunker/header_tracker.go:129-150 | At the start of a paragraph a table header becomes active exactly when none is active before it |
| HeaderTrackers.SecondTableBare | internal/chunker/header_tracker.go:79-91 | Two tables with one blank line between them, of which the second never gets its header |
| Hierarchy.HeadingHierarchy.Observe | internal/chunker/heading_hierarchy.go:32-58 | A heading replaces the entry of its level and clears the deeper ones; any other line changes nothing |
| Hierarchy.HeadingHierarchy.BreadcrumbWithHashes | internal/chunker/heading_hierarchy.go:79-96 | The lines of the breadcrumb are one per active heading, outermost first, each with as many hashes as its level, a space and the text |
| Hierarchy.CrumbLists | internal/chunker/heading_hierarchy.go:79-96 | So are those of the breadcrumb of any stack whose entries hold no newline; an empty stack has none |
| Hierarchy.StackIsScope | internal/chunker/heading_hierarchy.go:32-58 | A level's entry is the text of the heading of that level that no later heading of the same or a shallower level has ended |
| HeadingScan.GlobalCrumbLines | internal/chunker/heading_hierarchy.go:79-96 | The lines of the global breadcrumb at an offset are exactly the headings in force there, outermost first |
| HeadingScan.FindBoundaries | internal/chunker/heading_splitter.go:163-203 | The sections start at the document's start and at exactly the primary headings outside fences |
| HeadingScan.SectionBreadcrumbs | internal/chunker/heading_splitter.go:244-288 | Every offset of a section resolves to the seed's breadcrumb after the sub-headings that start by it |
| HeadingScan.ObserveSubHeadings | internal/chunker/heading_splitter.go:208-230 | The hierarchy absorbs exactly the section's headings below the primary level |
| HeadingTier.CrumbInSection | internal/chunker/heading_splitter.go:244-288 | The breadcrumb computed inside a section equals that of one scan over all headings of the document up to the offset |
| HeadingTier.StackAfterSection | internal/chunker/heading_splitter.go:52-80 | After a section the running hierarchy equals that of the global scan |
| HeadingTier.SplitSections | internal/chunker/heading_splitter.go:52-110 | Each section that fits with its breadcrumb is one chunk with its whole text, any other is what the legacy splitter makes of it, in place; every chunk is verbatim, crosses no primary heading and carries the global breadcrumb at its start, except the first chunk of a bare document, which carries none |
| HeadingTier.FirstCrumbExactly | internal/chunker/heading_splitter.go:62-92 | The chunk at the start of the document carries the breadcrumb in force there exactly unless the document opens with a named sub-heading and its first section fits one chunk |
| HeadingTier.BareExactly | internal/chunker/profiler.go:54-69 | At the dominant level the first chunk lacks its breadcrumb exactly when the document opens with a heading, a shallower level occurs at least three times, and the first section is short |
| HeadingTier.MissingCrumb | internal/chunker/heading_splitter.go:62-92 | For a text of one second-level heading and then three first-level ones, the heading tier returns a chunk at the start without breadcrumb although the first heading is in force |
| HeadingTier.SplitByHeadings | internal/chunker/heading_splitter.go:25-113 | For all chunk sizes the chunks are verbatim, densely numbered, lose nothing, carry leading lines of the global breadcrumb, and hold no more runes than the larger of the chunk size and 7500 |
| Profiles.ProfileHeadings | internal/chunker/profiler.go:80-175 | The scan counts the headings of each level outside fences |
| Profiles.TotalIsSum | internal/chunker/profiler.go:80-175 | The total number of headings is the sum of those of the six levels |
| Profiles.DominantHeadingLevel | internal/chunker/profiler.go:54-69 | The loops find the shallowest level with at least three headings, else the deepest level that occurs, else none |
| Profiles.DominantMeans | internal/chunker/profiler.go:54-69 | A dominant level occurs in the document; it carries three headings and no shallower level does, or no level does and none is deeper |
| Profiles.BackboneMeans | internal/chunker/profiler.go:204-214 | The test for a heading backbone asks for three headings, and more than one for every 200 lines; there is a dominant level then |
| Coalesce.CoalesceTiny | internal/chunker/heading_splitter.go:123-158 | The loop computes the greedy left-to-right merge, renumbered, which joins groups of adjacent chunks |
| Coalesce.MergeIsCoalesced | internal/chunker/heading_splitter.go:115-158 | Each merged chunk is a group of adjacent ones, their texts in order, under all the leading breadcrumb lines that they share; a chunk is in its group exactly when it touches it, shares a breadcrumb with all of it, the group so far is below half the budget or 200 runes, and both fit the budget |
| Coalesce.CommonPrefixLeads | internal/chunker/heading_hierarchy.go:135-149 | The shared breadcrumb consists of leading whole lines of both |
| Coalesce.MergeKeepsText | internal/chunker/heading_splitter.go:123-158 | Coalescing adds, drops and reorders no text |
| Coalesce.VerbatimExactly | internal/chunker/heading_splitter.go:123-158 | Coalescing keeps the verbatim invariant exactly when no chunk with an injected header is appended to another |
| Coalesce.MergeKeepsVerbatim | internal/chunker/heading_splitter.go:123-158 | It keeps it although it never adjusts the synthetic count when header chunks are apart from their predecessor |
| HeuristicTier.DropBoundsInsideSpans | internal/chunker/heuristic_splitter.go:172-190 | With sorted spans the early exit drops exactly the bounds strictly inside a span |
| HeuristicTier.ApplyOverlapAligned | internal/chunker/heuristic_splitter.go:252-283 | The start is the last bound within twice the overlap, else the start of a line, else the target |
| HeuristicTier.NotBackwards | internal/chunker/heuristic_splitter.go:60-80 | Aligning the overlap never moves a chunk start backwards |
| HeuristicTier.SplitByHeuristics | internal/chunker/heuristic_splitter.go:24-89 | The bounds are exactly the found ones outside protected regions; the packed stretches leave no gap and never move backwards, stop only where the next block would overflow a stretch that is large enough, or is itself larger than a chunk, and pass over no such bound; the chunks are the stretches, unless blank, and what the legacy splitter makes of larger blocks |
| HeuristicTier.PackedWithinCap | internal/chunker/heuristic_splitter.go:46-88 | Every chunk outside an oversize block holds no more runes than the packing cap |
| HeuristicTier.PackCapIsTwice | internal/chunker/validator.go:63-68 | With a chunk size of at least 50 and the overlap clamped to half, that cap is the validator's limit of twice the chunk size |
| Validation.ValidateChunks | internal/chunker/validator.go:20-71 | The loops find the first objection in the order of the checks |
| Validation.JudgedExactly | internal/chunker/validator.go:20-71 | A chunk set is accepted exactly when there is none of the five objections to it, with tiny chunks counted but for the last; otherwise the verdict is the first objection in their order |
| Validation.AcceptedMeans | internal/chunker/validator.go:20-71 | An accepted set is not empty, has no chunk above twice the target, and splits a large document |
| Strategy.SplitWithDiagnostics | internal/chunker/strategy.go:23-67 | The tiers tried are the named one and legacy, or for any other name heading exactly when there are three headings and more than one for every 200 lines, heuristic exactly when there are other markers, and legacy, in this order; the selected one is the first whose chunks draw no objection, else legacy; its chunks are verbatim and lose nothing |
| Strategy.RunTier | internal/chunker/strategy.go:80-89 | Each tier's output is the one of that tier's algorithm |
| ParentChild.RemapVerbatim | internal/chunker/strategy.go:165-224 | Mapping a child into the document is exact and stays in the parent's range, also when the child starts or ends inside the parent's injected header |
| ParentChild.MergedLines | internal/chunker/heading_hierarchy.go:109-131 | The merged breadcrumb is the parent's lines and then the child's, without a repeated line between them |
| ParentChild.SplitParentChild | internal/chunker/strategy.go:91-163 | For every document, configuration and tier choice the loops build the families of one split of the document by the parent configuration and one split of each parent by the child configuration |
| ParentChild.EveryChildOk | internal/chunker/strategy.go:105-163 | Exactly the parents that are not one identical child have a row, in order; each child comes from its sub-chunk, with its text in place, the lines of its parent's breadcrumb and then its own without a repeated line between them, its own pages, its parent's hash, and the index of its parent's row, which is numbered before it |
| ParentChild.OriginsInOrder | internal/chunker/strategy.go:131-160 | Every sub-chunk of every parent has exactly one child, in the order of the sub-chunks |
| ParentChild.ChildrenCover | internal/chunker/strategy.go:131-160 | When no split loses or rewrites anything, which is so for every input, every non-blank rune of the document lies in the range of some child |
| ParentChild.SharedSequence | internal/chunker/strategy.go:102-103 | Parents and children share one dense sequence in which each number belongs to exactly one row |
| ParentChild.ChildPagesNest | internal/chunker/strategy.go:148-154 | With pages in order, a child's page range lies within its parent's, unless the child is empty and at the very end of its parent |
| ParentChild.MappedInside | internal/chunker/strategy.go:165-224 | No mapped child is of that kind when it holds anything of its parent's content, be it only injected header |
| PageMap.NewPageMapper | internal/chunker/pagemap.go:29-50 | The mapper is empty unless there is one page per line, and else records where each line starts |
| PageMap.LineForRune | internal/chunker/pagemap.go:73-83 | The binary search returns the number of newlines before the offset |
| PageMap.RangeFor | internal/chunker/pagemap.go:54-69 | The range is the pages of the lines of the first and the last rune |
| PageMap.RangesNest | internal/chunker/pagemap.go:54-69 | With pages in order, ranges never run backwards and a wider range encloses a narrower one, empty ranges counting as one rune |
| PageMap.PagesEnclose | internal/chunker/pagemap.go:54-69 | With pages in order, every rune of a range is on a page within the range's pages |
| PageMap.PagesAttained | internal/chunker/pagemap.go:54-69 | The two pages of a range are those of runes inside it |
| Stitching.Stitch | internal/pipeline/stitch.go:34-87 | In ascending index order each shard adds its lines, all of them unless its first heading repeats the last one before it, and its pages spread evenly over them; the markdown is these lines trimmed, and the page map is cut to match |
| Stitching.StitchGroups | internal/pipeline/stitch.go:44-80 | A shard whose first heading repeats the last heading of the lines before it adds everything but its first line and the blank lines right under that; any other shard adds every line |
| Stitching.MarkdownLines | internal/pipeline/stitch.go:81-85 | The trimmed document consists of the non-blank core of the stitched lines, one newline each |
| Stitching.AlignPages | internal/pipeline/stitch.go:97-124 | The page map is cut to the surviving lines, or dropped when it never had one page per line |
| Stitching.PagesAccepted | internal/pipeline/stitch.go:13-20 | The map is present exactly when every contributing shard has a range and a non-blank line is left, and then has one page per newline |
| Stitching.PagesFollowLines | internal/pipeline/stitch.go:89-124 | Every line of the document keeps the page of the stitched line it came from |
| Stitching.ChunkPagesOrdered | internal/pipeline/stitch.go:24-33 | With ranges ordered by index, pages are nondecreasing and within the shards' ranges, and every chunk's first page is at most its last |
| PageBlocks.ClippedExactly | internal/pipeline/stitch.go:69-80 | For all ranges and line counts, what is left of the page map between two lines never decreases exactly when what is left of each shard does not run backwards and starts no earlier than any shard before it ends |
| Stitching.PagesOrderedExactly | internal/pipeline/stitch.go:34-90 | For every input, the pages that Stitch returns never decrease exactly when they are dropped or what trimming left of each shard is in order |
| Stitching.OrderedExactly | internal/pipeline/stitch.go:34-90 | Given ranges, of whatever direction, keep the returned pages in order for all shard contents exactly when they follow each other in index order and none runs backwards by more than two pages |
| Stitching.ResplitPagesRunBackwards | internal/pipeline/stitch.go:34-87 | A concrete stitch that returns decreasing pages because re-split shards have later indices |
| Stitching.PreambleLost | internal/pipeline/stitch.go:57-67 | A shard with a line before the repeated heading loses that line and keeps the heading |
| Stitching.DropsFirstLineNotHeading | internal/pipeline/stitch.go:56-67 | What a repeated boundary heading costs is the first line and the blanks under it; the heading itself goes only when the shard opens with it |
| Batches.FieldsOfJoin | internal/pipeline/fields.go:5-6 | Joining words and splitting again gives the same words |
| Batches.SplitWordsTruncate | internal/pipeline/embedder.go:48-60 | The cut text is as many of the first words as the budget allows |
| Batches.PlanBatches | internal/pipeline/embedder.go:15-45 | Batches keep the order and lose no text; the cap and the budget are respected exactly when they can be; no batch has room for the start of the next |
| Batches.SentExactly | internal/pipeline/embedder.go:26-34 | A text within the budget is sent untouched; any other is cut to as many of its first words as the budget allows |
| Batches.CutTextsAre | internal/pipeline/embedder.go:22-34 | The texts reported as truncated are the sent forms of exactly those over the budget, in order |
| Batches.FewestBatches | internal/pipeline/embedder.go:9-14 | No order-preserving partition that respects the budget and the cap has fewer batches |
| Batches.AssembleEmbeddingRows | internal/service/embedder.go:278-300 | The nested loops pair the vectors of all batches with the chunk ids at the running offset |
| Batches.RowsExactly | internal/service/embedder.go:278-300 | Whatever number of vectors each batch got, there is a row for each of them that has an id that many places after the start of its batch, and no other |
| Batches.EachChunkItsVector | internal/service/embedder.go:278-300 | With one vector per text, chunk i is paired with exactly vector i |
| Dedupe.DropDuplicateChunks | internal/chunker/hash.go:41-54 | The first occurrence of every hash is kept, in order and renumbered, in the result and in place |
| Dedupe.FirstsKeepEveryHash | internal/chunker/hash.go:33-40 | The set of hashes is unchanged and each occurs once |
| Dedupe.RenumberGlobal | internal/chunker/hash.go:66-77 | One sequence, parents first, then children |
| Dedupe.DedupeDocument | internal/service/embedder.go:104-140 | The dedupe of both sets, the cross-set filter and the renumbering, in sequence |
| Dedupe.RowsUnique | internal/service/embedder.go:100-140 | Hashes are unique across parents and children together, none is lost, and the sequence is exactly 0 to N-1 |
| Dedupe.KeptRows | internal/service/embedder.go:100-140 | A parent survives exactly when no earlier one has its hash, a child exactly when no parent and no earlier child has; the survivors keep their order and everything but their numbers |
| Dedupe.ParentLinks | internal/service/embedder.go:142-259 | Every kept child of a materialised parent is linked to a surviving parent row, never to itself, and no other child is linked |
| Sharding.FixedBounds | internal/pipeline/splitter.go:19-48 | The loop ends for every overlap; windows follow each other from page 1 until none is left to start |
| Sharding.FixedCovers | internal/pipeline/splitter.go:11-48 | Every page is in a window exactly when the overlap is not negative or one window is enough |
| Sharding.OverlapShared | internal/pipeline/splitter.go:34-46 | Neighbouring windows share exactly the overlap when it is shorter than a window |
| Sharding.NoOverlapTiles | internal/pipeline/splitter.go:19-48 | Without overlap the windows tile the pages disjointly, as many as the page count divided by the size, rounded up |
| Sharding.ChapterAlignedBounds | internal/pipeline/splitter.go:54-126 | For any outline the pages are tiled disjointly, every clamped bookmark starts a shard, and a shard is cut short only there or at the end; the fallback is unreachable |
| Ladder.ResplitBounds | internal/service/parser.go:100-118 | The sub-shards tile their parent, all of full length but for the last |
| Ladder.Rungs | internal/service/parser.go:20-118 | The second attempt cuts a shard into four to seven parts, or fewer single pages; the third cuts whatever still has two pages into single pages; no other attempt cuts anything |
| Ladder.ResplitShrinks | internal/service/parser.go:42-118 | A resplit yields at least two sub-shards, each strictly shorter than the parent, that cover it |
| Ladder.LadderEnds | internal/service/parser.go:20-54 | Resplitting sub-shards of sub-shards goes on for fewer rounds than there are pages |
| ShardTables.InsertedRows | internal/store/documents.go:252-264 | Inserting adds exactly the fresh rows and changes no other |
| ShardStore.Store.ClaimShard | internal/store/documents.go:281-298 | Only a pending or failed row is claimed, with one more attempt and its lease; otherwise nothing changes |
| ShardStore.Store.InsertShards | internal/store/documents.go:252-264 | The row-by-row insert fails exactly on a key conflict or a missing document |
| ShardStore.Store.NextShardIdx | internal/store/documents.go:239-250 | The next index is one past the largest of the document, or 0 |
| ShardStore.Store.CommitSplitTx | internal/service/splitter.go:173-184 | The pending rows of all bounds, the total and the parsing state are written together, or nothing is on a conflict |
| ShardStore.Store.ResplitTx | internal/service/parser.go:119-147 | Skipping the parent, inserting the sub-shards and setting the total happen together or not at all |
| ShardStore.Store.EscalateStuckShards | internal/store/janitor.go:54-87 | Exactly the pending rows with no attempt left fail and are returned, and the tally loop raises each document's counter by its own rows |
| ShardStore.DeltaIsCount | internal/store/janitor.go:79-85 | Tallying the returned rows per document counts them |
| ShardStore.Store.RetryShardsTx | internal/api/documents.go:665-676 | The retry leaves the document parsing and without a failed row |
| ShardStore.Completeness | internal/store/janitor.go:254-275 | The completeness fits between 0 and 1 for all counters, however poisoned |
| ShardStore.CompletenessMeans | internal/store/janitor.go:254-275 | The completeness is full when nothing failed, nothing when no fewer shards failed than there are, and in between the share of the others, rounded to the nearest ten-thousandth |
| Counters.LeadsAfter | internal/store/documents.go:266-328 | By how much each transaction lets either counter gain on the rows: by one in the named cases, else not at all, and a recount ends every lead |
| Counters.CommitExactly | internal/service/splitter.go:173-184 | A committed split of a document without rows makes its rows exactly the bounds and its total their number, keeps exact counters exact, and changes nothing else |
| Counters.StaysExact | internal/store/documents.go:281-328 | Exact counters stay exact precisely when neither of them gains: nothing without a row or done already is finished, nothing failed is claimed or finished, and nothing done or failed is replaced |
| Counters.ReapExactly | internal/store/documents.go:340-350 | After reaping no lease is expired; exactly the rows with an expired one have moved from running to pending, and all other counts are as they were |
| Counters.RequeueExactly | internal/store/janitor.go:233-252 | After requeueing the document has no failed row and that many more pending ones, the counter keeps its lead, and every other row and document is as it was |
| Counters.ApplySafe | internal/store/documents.go:266-350 | No transaction lets a counter fall below the true count |
| Counters.EscalateCounts | internal/store/janitor.go:54-87 | Escalation raises count and counter alike |
| Counters.RepairExact | internal/store/janitor.go:308-342 | However far the counters have drifted, a repair makes this document's exact and touches no other; with a total equal to the rows, settled then means every row done or failed |
| Counters.CountersSafe | internal/store/documents.go:300-350 | Over all runs of transactions the counters are at least the true counts and the failed counter is not negative |
| Counters.SettlesWhenAllSettled | internal/store/documents.go:330-338 | A document whose rows are all done or failed is settled when its total is positive and within its rows |
| Counters.SettledExactly | internal/store/documents.go:330-338 | With exact counters and a total equal to the rows, settled means exactly that every row is done or failed |
| Counters.SkippedParentBlocks | internal/service/parser.go:130-140 | With exact counters and total, a skipped parent keeps its document unsettled |
| Counters.ResplitBlocks | internal/service/parser.go:125-140 | A resplit that adds to the current total keeps counters and total exact, so that it blocks its document |
| Counters.BlockedStays | internal/service/parser.go:125-140 | The document stays blocked whatever becomes of the sub-shards, short of a full retry or a late finish of the parent |
| Counters.NeverSettles | internal/service/parser.go:130-140 | A concrete run after which every row but the skipped parent is done and the document is not settled |
| RunCounters.CountersSafeInRuns | internal/service/parser.go:378-416 | The counter and settlement guarantees in every run of the protocol |
| Protocol.TablesOfRun | internal/worker/runner.go:84-104 | Every protocol run changes the tables by a sequence of whole transactions |
| Protocol.LostExactly | internal/worker/janitor.go:104-123 | In every run the event of a dropped entry is lost exactly when the pass fails after dropping it and before writing, and is awaited exactly while neither has happened |
| Leases.HoldsApply | internal/store/documents.go:266-350 | Reaping after the lease and resets aside, the one transaction that gives away a held row is MarkShardFailed of that row, which no code calls |
| Leases.LeaseExclusion | internal/store/documents.go:281-350 | Over all runs, at most one unexpired claim per shard between full retries, however late workers finish, skip or give up, also after their entries are gone |
| LateWorker.FinishesLate | internal/store/documents.go:300-315 | In every configuration a run ends with a handler about to finish whose entry is gone and whose shard is under another's unexpired claim |
| Recovery.ClaimKept | internal/service/parser.go:222-229 | A refused claim may be acknowledged: the row is in other hands that still carry its job, or finished |
| Recovery.StaleOwnsNothing | internal/worker/janitor.go:207-230 | An entry idle long enough to be reclaimed owns no running row |
| Recovery.ReaddKept | internal/worker/janitor.go:290-297 | Adding an entry again before dropping the old one keeps its shard's job alive |
| Recovery.NoShardInvisible | internal/worker/janitor.go:55-163 | In every reachable state of a timely configuration each shard is done, failed, skipped, unattempted, spent, carried by a live job or quarantined with an event, except where a handler has found its source gone since its last claim or that event is lost |
| RecoveryGap.UntimelyStrands | internal/worker/janitor.go:207-230 | Every configuration that is not timely has a run that strands a shard |
| Reopening.TerminalUnlessRevived | internal/store/documents.go:110-116 | A terminal document with shard rows leaves its terminal state exactly by a retry, a full reset, or another write of a working state |
| Reopening.WorkingDocsInReach | internal/worker/janitor.go:55-163 | In a timely configuration where sources do not vanish or documents are not reopened, and events are written or attempts single, every shard of a document at work is within reach in every run |
| Reopening.RetryStrandsExactly | internal/api/documents.go:655-694 | A shards retry strands exactly those shards of its document that were unrecoverable before it |
| ReopenGap.RetryStrands | internal/service/parser.go:34-40 | With vanishing sources and reopened documents, a run in which one shard spends its attempts, brought back by reclaims alone, another's source is gone, and the retry strands the latter |
| LetterGap.LostLetterStrands | internal/worker/janitor.go:104-123 | With passes that fail before writing, a run in which a shard is dropped without an event and stranded |
| RecoveryExact.InReachExactly | internal/worker/janitor.go:55-163 | No shard of a document at work is ever out of reach exactly in the timely configurations without these two exposures, and the same holds of the runs in which only the fan-out of a split queues jobs |
| RecoveryExact.LastAttemptFails | internal/store/janitor.go:54-87 | A running row in its last attempt is failed by the next reap after its lease and the escalation after that |
| RecoveryExact.NeverStrandedExactly | internal/worker/janitor.go:55-163 | No shard is ever out of reach and not in its last attempt exactly when shards have a single attempt, or the configuration is timely and neither vanished sources meet reopened documents nor events get lost |
| ParseStream.Stream.ReadOne | internal/queue/streams.go:124-160 | Delivery moves the first unread message to the pending list and loses no key |
| ParseStream.Stream.PendingJobKeys | internal/queue/streams.go:326-400 | The scan finds the undelivered keys and the first 500 pending ones: all queued keys unless more are pending |
| ParseStream.Stream.ClaimStale | internal/queue/streams.go:184-209 | The first entries idle long enough change hands, up to the count: those with a job are delivered once more and no longer idle, those without one go, all others stay as they were, and no queued key is lost |
| ParseStream.StaleJobsExactly | internal/queue/streams.go:184-209 | The claimed jobs are those of the entries taken, in order |
| ParseStream.Stream.ReclaimDecide | internal/worker/janitor.go:258-298 | An entry is quarantined exactly when its count is known and at the cap, kept exactly when it is not and cannot be added again; a quarantined one is dropped, a re-added one is dropped behind its new copy, and its job stays queued unless it is quarantined |
| ParseStream.Stream.Reclaim | internal/worker/janitor.go:207-248 | After a reclaim every queued job is still queued or among the quarantined, which are the dead entries before the first one that cannot be added again; up to there every entry is gone and counted once; such a one is an error |
| ParseStream.DeadKeysAre | internal/worker/janitor.go:207-248 | A shard is quarantined exactly when a dead entry of it comes before every entry that cannot be added again |
| ParseStream.DeadKeysPicked | internal/worker/janitor.go:207-248 | The quarantined are reported in the order of their entries |
| Janitors.Janitor.ReclaimStep | internal/worker/janitor.go:99-123 | The events of the quarantined entries are written all or not at all, and every queued job is still queued or dropped |
| Janitors.UnwrittenExactly | internal/worker/janitor.go:104-123 | A dropped shard's event goes unwritten exactly when a later entry cannot be added again or the write fails |
| Janitors.KeysDiffer | internal/worker/janitor.go:407-413 | The dedup key determines document and index |
| Janitors.MissingExactly | internal/worker/janitor.go:430-450 | Exactly the shards without a queued job are rescued |
| Janitors.MissingInOrder | internal/worker/janitor.go:430-450 | Each of them gets one job with its own page range, in order |
| Janitors.Sweep | internal/worker/janitor.go:452-501 | The sweep appends one message for each shard that the scan found without a job, in order, so that every never-attempted shard has a queued job afterwards |

## Left out

- Recovery.NoShardInvisible: says that a recovery path exists, not that it is taken in time, and assumes that Redis keeps its data.
- Dedupe.ParentLinks: takes the chunk id (UUIDv5, section 4.3 of RFC 4122) as injective in the hash, and no hash as empty.
- Batches.PlanBatches: models the whitespace tokenizer, the only one lybrix passes to it.
- Strategy.RunTier: takes the test for other structural markers than headings from the lexicon, whatever it is.
- Stitching.Stitch: takes the unwrapping of JSON payloads as a parameter.
- Regular expressions, language detection and token ratios decide where spans are; they are quantified over.
  So are what a table row, an empty header row and a header's columns are (`HeaderTrackers.TablePatterns`).
- The Docling, TEI and rerank clients, PDF slicing and the object store are foreign calls: given values, or protocol steps that may fail.
- SQL and stream internals: each statement and each command is one atomic effect, and a retried transaction is one commit or none.
- The network phase of HandleEmbed, its retry counters, and embedSweep, which adds embed jobs for settled documents.
- Document states other than those of the shard transactions are written by one protocol step that may
  set any of them at any time, which includes a split handler that acts on a state it read earlier; the
  embed handler that writes most of them is not modelled, nor is the table of chunks.
- Protocol.After: a job may be queued at any time, also where no code does; the stranding runs do not use this (`Scenes.FanOutOnly`).
- Protocol.LostExactly: writing the events of one pass is one step; there is a single janitor.
- The in-place filter over a shared backing array at `internal/service/embedder.go:121` is modelled by building the kept list.
- The HTTP API, the MCP server, search, metrics rollup, the command line and the web interface.
