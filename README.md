# mk.ai preview pipeline, modelled in Dafny

This project models the incremental preview pipeline of the mk.ai Markdown
editor and proves properties of the model. The pipeline has these parts:

- the block segmenter that cuts a document into typed blocks;
- the block differ that reconciles two block lists;
- the bounded render cache and the cache-then-parse rule of a block renderer;
- the parse coordinator hook and its background worker;
- the size-based delay policies;
- a handful of pure helpers: the outline, path splitting, font-family strings
  and theme lookup, HTML escaping, ICO byte layout and the editor store.

Strings are `seq<char>`. Numbers are unbounded `nat`/`int`, or exact `real`
where the program computes with doubles.

Methods and classes follow the program's imperative parts:

- `MarkdownBlocks.ParseMarkdownToBlocks` is one `for` loop over the lines. It
  keeps the program's flags, buffer and counter, and is proved equal to the
  fold `Segment`.
- `BlockDiff.DiffBlocks` builds the old-key map and runs the three passes as
  loops over sets and sequences. It is proved equal to `Diff`.
- `RenderCache.Cache` holds the Map as its entries in insertion order.
- `MarkdownWorker.MarkdownWorkerHook` holds the hook's state and the request
  counter.
- `Ico.CreateIcoDirEntry` and `Ico.CreateIcoHeader` fill arrays through the
  little-endian writers.
- `Outline.ExtractHeadings` is the outline loop.
- `EditorStore.Store` is the store.

Each of these is tied by its `ensures` to a function over values. The lemmas
state the program's promises about those functions.

Files:

| file | module | program part |
|---|---|---|
| text.dfy | Text | JavaScript string helpers: `trim`, `split`, `join`, `slice`, number formatting |
| markdown_blocks.dfy | MarkdownBlocks | `parseMarkdownToBlocks`, `flushBlock`, `estimateBlockHeight` |
| segment_props.dfy | SegmentProps | properties of the segmenter |
| block_diff.dfy | BlockDiff | `diffBlocks`, `getBlockKey`, `shouldFullRerender`, `getChangeStats` |
| render_cache.dfy | RenderCache | `renderCache`, `getCachedRender`, `setCachedRender`, `BlockRenderer`, progress |
| markdown_worker.dfy | MarkdownWorker | the worker's `onmessage` and the `useMarkdownWorker` hook |
| performance.dfy | Performance | `isLargeDocument`, `getRenderDelay` |
| preview.dfy | PreviewDebounce | `getDebounceDelay` |
| outline.dfy | Outline | `extractHeadings` and the indentation formula |
| file_paths.dfy | FilePaths | `getFileName`, `getDirectory` |
| themes.dfy | Themes | `THEMES`, font presets, `buildFontFamily`, `getTheme`, `getFont` |
| export_html.dfy | ExportHtml | `escapeHtml`, `getThemeStyles` |
| ico.dfy | Ico | `createIcoHeader`, `createIcoDirEntry`, `generateIco` |
| editor_store.dfy | EditorStore | the zustand editor store |

Points of the code that the model keeps as written:

- The render cache keys on the type and the whole content
  (src/components/Preview/VirtualPreview.tsx:23); only the differ's key
  (`BlockDiff.BlockKey`) uses the first 100 characters.
- When the cache is full, `setCachedRender` deletes the oldest key even when
  the key being set is already present. The entry count then drops by one,
  unless the key being set is the oldest: it is deleted and inserted again
  last, and the count stays the same (`RenderCache.FullCacheCount`).
- "No block split mid-construct" holds only while code fences and `$$` lines
  do not nest:
  - the fence test and the `$$` test both run before the inside-a-region
    guard;
  - so a `$$` line inside a fence, or a fence inside a `$$` region, flushes
    the block, and may leave the other region's flag set.
  - Reconstruction is therefore stated in three strengths. In general, only
    blank lines are dropped (`SegmentDropsOnlyBlankLines`). When no region
    delimiter is read inside the other kind of region, a line is dropped
    exactly when it is blank and read outside code and math
    (`SegmentKeepsLines`). With no fence or `$$` line, the blocks hold
    exactly the non-blank lines (`SegmentPlainLines`).
- A fence or `$$` line does not clear the table flag. A pipe row after a
  table that a region interrupted is therefore appended to a paragraph
  instead of opening a table (`SegmentProps.InterruptedTableInDocument`).
- Parsing empty content clears the blocks but not the in-flight flag
  (src/hooks/useMarkdownWorker.ts:104-108). After a worker request, clearing
  the document drops the worker and issues no request, so the flag stays set
  (`MarkdownWorker.ClearedDocumentStaysParsing`).

## Model

| member | source | states |
|---|---|---|
| MarkdownBlocks.ParseMarkdownToBlocks | src/lib/markdown-blocks.ts:17-174 | the loop over `content.split('\n')`, with its mode flags, buffer, block type and counter, followed by the final flush, returns exactly the blocks of the line-by-line fold `Segment(content)` |
| MarkdownBlocks.Segment | src/lib/markdown-blocks.ts:17-174 | the specification of the pass: the line-by-line fold of `Step` from the empty state over `content.split('\n')`, then the final flush; its properties are the `SegmentProps` lemmas below |
| MarkdownBlocks.Step | src/lib/markdown-blocks.ts:43-168 | one turn of the loop as a function of the three flags and the accumulator: fence test, `$$` test, inside-region guard, pipe rows, then the outside rules |
| MarkdownBlocks.Flush | src/lib/markdown-blocks.ts:28-41 | `flushBlock` as a function: a non-blank joined buffer becomes the next block; any non-empty buffer is cleared and the type reset to paragraph |
| MarkdownBlocks.SegmentLine | src/lib/markdown-blocks.ts:43-168 | one pass of the loop body moves the seven loop variables exactly as the step function does: fence test, `$$` test, inside-region guard, then table rows |
| MarkdownBlocks.OutsideLine | src/lib/markdown-blocks.ts:99-167 | the rules after the table test act as the outside step: blank line, heading, rule, quote, list, image, paragraph |
| MarkdownBlocks.FlushBlock | src/lib/markdown-blocks.ts:28-41 | `flushBlock` emits a non-blank joined buffer with the next id and resets the buffer and the type; an empty buffer changes nothing |
| MarkdownBlocks.HeadingLevel | src/lib/markdown-blocks.ts:108-115 | `/^(#{1,6})\s/` on the untrimmed line: a level only when the line starts with 1 to 6 '#' followed by white space, equal to the number of leading '#' |
| MarkdownBlocks.TypeNameInjective | src/lib/markdown-blocks.ts:8 | two block types have the same type string exactly when they are the same type |
| MarkdownBlocks.BlockIdInjective | src/lib/markdown-blocks.ts:33 | `block-${m}` equals `block-${n}` exactly when m = n |
| MarkdownBlocks.RunAppend | src/lib/markdown-blocks.ts:43-168 | running the loop over xs + ys is running it over xs, then over ys from the state reached |
| MarkdownBlocks.EstimateBlockHeight | src/lib/markdown-blocks.ts:179-201 | code and mermaid blocks are estimated at least 100 and at least lines·1.6·fontSize + 32 |
| MarkdownBlocks.EstimateBlockHeightCases | src/lib/markdown-blocks.ts:183-197 | image 300, rule 40, table 40·lines + 20, and a heading without a level estimated as level 1 |
| MarkdownBlocks.HeadingHeightDecreasing | src/lib/markdown-blocks.ts:184-186 | for a positive font size, a deeper heading is estimated strictly lower |
| SegmentProps.SegmentWellFormed | src/lib/markdown-blocks.ts:28-160 | every block has id `block-k` at position k and non-blank content, and is never of type html; only headings carry a level, which is the number of leading '#' (1 to 6); headings, rules and images are single lines |
| SegmentProps.SegmentIdsUnique | src/lib/markdown-blocks.ts:33 | no two blocks share an id |
| SegmentProps.SegmentDropsOnlyBlankLines | src/lib/markdown-blocks.ts:43-171 | the blocks' lines, read in order, are the document's lines with some blank lines left out and nothing else changed |
| SegmentProps.SegmentPlainLines | src/lib/markdown-blocks.ts:43-171 | with no fence and no `$$` line, the blocks hold exactly the document's non-blank lines, in order |
| SegmentProps.SegmentKeepsLines | src/lib/markdown-blocks.ts:43-171 | when no `$$` line is read inside code and no fence line inside math, the blocks' lines are the document's lines with exactly those left out that are blank and read outside code and math |
| SegmentProps.NestedRegionsDropBlank | src/lib/markdown-blocks.ts:48-81 | in the lines ```` ``` ````, `$$`, ```` ``` ````, blank, the closing fence leaves the math flag set, regions nest, and the blank line read inside math is in no block: the blocks are the code fence and the math block `$$`, ```` ``` ```` |
| SegmentProps.FenceInDocument | src/lib/markdown-blocks.ts:48-61 | a fence read outside code and closed by a later fence, with no fence or `$$` line between them, becomes one block from the opening fence to the closing one; that block is mermaid exactly when the trimmed tag is "mermaid", else code |
| SegmentProps.MathInDocument | src/lib/markdown-blocks.ts:64-76 | a `$$` line read outside math and closed by a later `$$`, with no fence or `$$` line between them, becomes one math block holding both delimiters and the lines between |
| SegmentProps.UnclosedFenceInDocument | src/lib/markdown-blocks.ts:48-171 | a fence read outside code and never closed, with no fence or `$$` line after it, yields as the last block every line from the fence to the end of the input |
| SegmentProps.TableInDocument | src/lib/markdown-blocks.ts:48-97 | a maximal run of pipe rows, read with no region and no table open and ended by any non-pipe line (a fence or `$$` line flushes it before opening its region), becomes exactly one table block holding those rows |
| SegmentProps.TableAtEndOfDocument | src/lib/markdown-blocks.ts:85-171 | a run of pipe rows that ends the input, read with no region and no table open, is the last block: one table holding exactly those rows, emitted by the final flush |
| SegmentProps.InterruptedTable | src/lib/markdown-blocks.ts:48-97 | after pipe rows, a fenced region leaves the table flag set with an empty paragraph buffer, and the next pipe row then opens the paragraph block that the following plain line flushes |
| SegmentProps.InterruptedTableInDocument | src/lib/markdown-blocks.ts:48-97 | in a document, a pipe row after a table that a fenced region interrupted becomes a paragraph block, not a table |
| SegmentProps.SegmentHeightsPositive | src/lib/markdown-blocks.ts:179-200 | for a non-negative font size, every block of a document gets a positive height estimate |
| BlockDiff.BlockKey | src/lib/block-diff.ts:102-105 | `getBlockKey`: the type string, a colon and the first 100 characters of the content; `BlockKeyMeaning` states when two keys agree |
| BlockDiff.BlockKeyMeaning | src/lib/block-diff.ts:102-105 | two blocks share a diff key exactly when they have the same type and the same first 100 characters |
| BlockDiff.BuildOldMap | src/lib/block-diff.ts:26-33 | the built map sends each key to the old blocks with that key, with their indices, in old order |
| BlockDiff.FindUnused | src/lib/block-diff.ts:45 | returns the first candidate, in list order, whose index is not yet used, or none |
| BlockDiff.MatchPass | src/lib/block-diff.ts:39-61 | the first pass yields the used and matched index sets, the moves and the pairing of the matching fold |
| BlockDiff.RemovePass | src/lib/block-diff.ts:64-72 | appends a remove for every unused old index, in old order |
| BlockDiff.AddPass | src/lib/block-diff.ts:75-94 | appends, for every unmatched new index in new order, an update when an unused old block sits at that index and an add otherwise |
| BlockDiff.Diff | src/lib/block-diff.ts:19-97 | the specification of `diffBlocks`: the moves of the matching pass, then the removes, then the adds and updates, over the first-fit pairing; its properties are the lemmas below |
| BlockDiff.DiffBlocks | src/lib/block-diff.ts:19-97 | the method returns exactly the change list of the diff function |
| BlockDiff.TieBreak | src/lib/block-diff.ts:39-61 | new block k is paired with the first old block, in old order, that has its key and was not taken earlier; it is unpaired only when every old block with its key was taken |
| BlockDiff.DiffIdentical | src/lib/block-diff.ts:19-97 | diffing a list against itself gives no changes |
| BlockDiff.DiffLayout | src/lib/block-diff.ts:23-96 | the changes are moves, then removes, then adds and updates, each part in increasing index order |
| BlockDiff.DiffSegments | src/lib/block-diff.ts:23-96 | each position of the change list holds the change of the pass that produced it |
| BlockDiff.OldIndexAccounted | src/lib/block-diff.ts:45-72 | each old index is removed exactly once when unpaired and never when paired |
| BlockDiff.NewIndexAccounted | src/lib/block-diff.ts:39-94 | each new index gets exactly one add or update when unpaired and none when paired |
| BlockDiff.MovesExactlyForDisplacedPairs | src/lib/block-diff.ts:46-58 | a new index gets exactly one move when it is paired with a different old index, and none otherwise |
| BlockDiff.MoveChange | src/lib/block-diff.ts:51-58 | a move joins a pair with equal keys at different indices and carries the new and the old block |
| BlockDiff.RemoveChange | src/lib/block-diff.ts:64-71 | a remove carries an old block that is paired with no new block |
| BlockDiff.UpdateChange | src/lib/block-diff.ts:76-85 | an update carries an unpaired new block and the unpaired old block at the same index, and that index is also removed, exactly once |
| BlockDiff.AddChange | src/lib/block-diff.ts:76-92 | an add carries an unpaired new block whose index holds no unpaired old block |
| BlockDiff.ShouldFullRerender | src/lib/block-diff.ts:111-119 | true exactly when there are no blocks or 2·changes > total |
| BlockDiff.RatioAboveHalf | src/lib/block-diff.ts:117-118 | c / t > 0.5 over the reals exactly when 2c > t |
| BlockDiff.GetChangeStats | src/lib/block-diff.ts:124-135 | `getChangeStats`: the number of changes of each of the four kinds |
| BlockDiff.StatsSum | src/lib/block-diff.ts:124-135 | the four counts add up to the number of changes |
| BlockDiff.DiffRemovedCount | src/lib/block-diff.ts:64-72 | the removed count plus the number of pairs is the number of old blocks |
| BlockDiff.DiffAddedCount | src/lib/block-diff.ts:75-94 | the added and updated counts plus the number of pairs are the number of new blocks |
| BlockDiff.DiffStatsMoves | src/lib/block-diff.ts:51-58 | the moved count is the number of moves of the first pass, and a list diffed against itself has all counts 0 |
| RenderCache.CacheKey | src/components/Preview/VirtualPreview.tsx:22-23 | the cache key `${type}:${content}` over the whole content, never empty |
| RenderCache.CacheKeyMeaning | src/components/Preview/VirtualPreview.tsx:22-23 | two blocks share a cache entry exactly when their type and their whole content agree |
| RenderCache.EvictsOldest | src/components/Preview/VirtualPreview.tsx:31-34 | on a full cache, exactly the earliest-inserted entry is deleted before the set; otherwise nothing is |
| RenderCache.PutMeaning | src/components/Preview/VirtualPreview.tsx:36 | `Map.set` on a present key replaces its value in place, and on a new key appends it last; other entries are unchanged and the key reads back the value |
| RenderCache.StoredValid | src/components/Preview/VirtualPreview.tsx:27-37 | a cache of at most 100 distinct non-empty keys stays so after setCachedRender |
| RenderCache.StoredOrder | src/components/Preview/VirtualPreview.tsx:31-36 | after setCachedRender, the key order has the oldest key gone when full, and the key goes last only when it was not already present |
| RenderCache.FullCacheCount | src/components/Preview/VirtualPreview.tsx:31-36 | on a full cache the count drops by one when the key being set is present but not the oldest, and stays the same when it is the oldest or absent |
| RenderCache.StoredLookup | src/components/Preview/VirtualPreview.tsx:27-37 | after setCachedRender the key reads back the stored HTML, the evicted oldest key reads as missing, and every other key reads as before |
| RenderCache.CachedAfterStore | src/components/Preview/VirtualPreview.tsx:22-36 | getCachedRender after setCachedRender returns the stored HTML, or a miss when it is the empty string |
| RenderCache.Cache.SetCachedRender | src/components/Preview/VirtualPreview.tsx:27-37 | the method leaves the entries that the set-with-eviction function gives, and keeps the cache valid |
| RenderCache.RenderMeaning | src/components/Preview/VirtualPreview.tsx:78-92 | a hit is used without calling the renderer or touching the cache; a miss calls the renderer and stores the result, which then reads back |
| RenderCache.RenderAgainHits | src/components/Preview/VirtualPreview.tsx:82-91 | rendering a block a second time is a hit with the same HTML and no renderer call, unless the rendered HTML was empty |
| RenderCache.BlockView.Render | src/components/Preview/VirtualPreview.tsx:78-92 | an unrendered block changes nothing; a rendered one gets the HTML and the cache of the cache-then-parse step |
| RenderCache.BlockView.OnIntersect | src/components/Preview/VirtualPreview.tsx:58-66 | an intersecting block not yet rendered becomes rendered and is counted once; otherwise nothing is counted |
| RenderCache.Preview.HandleBlockVisible | src/components/Preview/VirtualPreview.tsx:149-151 | the rendered-block counter goes up by one |
| RenderCache.Progress | src/components/Preview/VirtualPreview.tsx:155 | `Math.round(renderedCount / totalBlocks * 100)`, rounded half up, and 100 for no blocks |
| RenderCache.ShowProgressBar | src/components/Preview/VirtualPreview.tsx:175 | the bar's guard: more than 50 blocks, progress below 100 and no parse in flight |
| RenderCache.ProgressMeaning | src/components/Preview/VirtualPreview.tsx:155 | progress is 100 for no blocks; otherwise it is 100 exactly when 199t ≤ 200r < 201t, and it lies in 0..100 while r ≤ t |
| RenderCache.ProgressBarMeaning | src/components/Preview/VirtualPreview.tsx:175 | the bar shows exactly for more than 50 blocks, no parse in flight and 200r < 199t |
| MarkdownWorker.HandleMessage | src/workers/markdown.worker.ts:22-54 | only `parse` messages get a response, of type `parsed` with the request id; it carries the parsed blocks and time, or no blocks and time 0 when parsing throws |
| MarkdownWorker.ResponseBlocksWellFormed | src/workers/markdown.worker.ts:29-39 | every response carries blocks numbered `block-0`, `block-1`, … and hence with distinct ids |
| MarkdownWorker.ShouldUseWorker | src/hooks/useMarkdownWorker.ts:63-76 | the worker is used exactly when enabled and the length exceeds the threshold, with the defaults meaning 30001 characters or more |
| MarkdownWorker.ParseState | src/hooks/useMarkdownWorker.ts:104-124 | empty content clears the blocks and the parse time and keeps the counter; other content adds 1 to the counter and sets the parsing flag |
| MarkdownWorker.ParseDispatch | src/hooks/useMarkdownWorker.ts:111-143 | a worker message carrying the new id is posted exactly when the content is non-empty, a worker exists and the size test passes; other non-empty content goes to the main thread |
| MarkdownWorker.Deliver | src/hooks/useMarkdownWorker.ts:84-92 | a response for the latest id sets blocks and parse time and clears the flag; any other response changes nothing |
| MarkdownWorker.CompleteInline | src/hooks/useMarkdownWorker.ts:127-135 | a main-thread completion publishes the parsed blocks and time and clears the flag, whatever the counter says |
| MarkdownWorker.RequestIdCountsParses | src/hooks/useMarkdownWorker.ts:104-112 | after any sequence of parse calls the counter has gone up by the number of non-empty ones |
| MarkdownWorker.EarlierRequestIgnored | src/hooks/useMarkdownWorker.ts:88 | a response to an earlier request changes nothing |
| MarkdownWorker.SupersededResponsesIgnored | src/hooks/useMarkdownWorker.ts:84-92 | after a new parse, responses to earlier requests change nothing, in any number and any order |
| MarkdownWorker.StaleResponsesIgnored | src/hooks/useMarkdownWorker.ts:88-92 | a run of responses none of which is current leaves the state unchanged |
| MarkdownWorker.LastCurrentResponseWins | src/hooks/useMarkdownWorker.ts:84-92 | whatever arrived before, a final current response decides the published blocks and parse time |
| MarkdownWorker.WorkerRoundTrip | src/hooks/useMarkdownWorker.ts:114-121 | a worker request answered before the next parse publishes the same state as the main-thread path |
| MarkdownWorker.ClearedDocumentStaysParsing | src/hooks/useMarkdownWorker.ts:76-110 | after a request went to the worker, clearing the document drops the worker and issues no request, and the flag stays set with the blocks cleared |
| MarkdownWorker.EmptyParsesKeepFlag | src/hooks/useMarkdownWorker.ts:104-109 | any number of parses of empty content leave the in-flight flag and the counter as they were and clear the blocks |
| MarkdownWorker.InlineCompletionUnguarded | src/hooks/useMarkdownWorker.ts:127-135 | a main-thread completion of an earlier parse still overwrites the blocks after a later parse |
| MarkdownWorker.MarkdownWorkerHook.constructor | src/hooks/useMarkdownWorker.ts:68-73 | no blocks, not parsing, parse time 0, counter 0, no worker |
| MarkdownWorker.MarkdownWorkerHook.SyncWorker | src/hooks/useMarkdownWorker.ts:79-101 | the worker exists afterwards exactly when the dispatch decision wants one and one could be created |
| MarkdownWorker.MarkdownWorkerHook.Parse | src/hooks/useMarkdownWorker.ts:104-144 | the method updates the state as ParseState and returns the request of ParseDispatch |
| MarkdownWorker.MarkdownWorkerHook.OnWorkerMessage | src/hooks/useMarkdownWorker.ts:84-93 | the handler updates the state as Deliver: latest id only |
| MarkdownWorker.MarkdownWorkerHook.RunParse | src/hooks/useMarkdownWorker.ts:127-135 | the scheduled parse updates the state as CompleteInline |
| Performance.IsLargeDocument | src/lib/performance.ts:66-68 | true exactly when the length exceeds 10000 |
| Performance.RenderDelay | src/lib/performance.ts:73-79 | 100 below 5000, 200 below 20000, 300 below 50000, 500 from there on |
| Performance.GetRenderDelay | src/lib/performance.ts:73-79 | always one of 100, 200, 300, 500 |
| Performance.RenderDelayMonotone | src/lib/performance.ts:73-79 | a longer document never waits less |
| Performance.LargeDocumentsWaitLonger | src/lib/performance.ts:66-79 | a large document waits at least 200 ms, and only documents under 5000 characters wait 100 ms |
| PreviewDebounce.DebounceDelay | src/components/Preview/Preview.tsx:17-22 | 150 below 1000, 250 below 5000, 400 below 20000, 600 from there on |
| PreviewDebounce.DebounceDelayMonotone | src/components/Preview/Preview.tsx:17-22 | a longer document is never debounced for less time |
| PreviewDebounce.DebounceDelayValues | src/components/Preview/Preview.tsx:17-22 | the delay is one of 150, 250, 400, 600 |
| Outline.MatchHeading | src/components/Outline/Outline.tsx:26-29 | a match has level 1..6 equal to the number of leading '#', white space after them, and text the trimmed remainder; no leading '#' or more than six gives no match |
| Outline.TailMatchesMeaning | src/components/Outline/Outline.tsx:26 | `\s+(.+)$` after the hashes accepts exactly white space followed by a non-empty rest without line terminators |
| Outline.BlankRemainderGivesEmptyText | src/components/Outline/Outline.tsx:26-29 | hashes followed by at least two white-space characters (the last not a line terminator) still match, with empty text |
| Outline.CarriageReturnLineHasNoItem | src/components/Outline/Outline.tsx:20-26 | a line still ending in '\r' gives no item, since `.` does not match it |
| Outline.ItemsAppend | src/components/Outline/Outline.tsx:24-33 | the items of two runs of lines are those of the first followed by those of the second, numbered on |
| Outline.OutlineWellFormed | src/components/Outline/Outline.tsx:22-31 | item k has id `heading-k`, ids are distinct, and levels lie in 1..6 |
| Outline.HeadingIdInjective | src/components/Outline/Outline.tsx:30 | `heading-${a}` equals `heading-${b}` exactly when a = b |
| Outline.ExtractHeadings | src/components/Outline/Outline.tsx:18-36 | the loop with its counter returns exactly the items of the per-line matches, in line order |
| Outline.VisitLine | src/components/Outline/Outline.tsx:26-31 | one turn pushes the line's item, if it matches, and advances the counter by the number pushed |
| Outline.MinLevel | src/components/Outline/Outline.tsx:51 | the minimum is at most every level and is the level of some item |
| Outline.Indent | src/components/Outline/Outline.tsx:64 | the left padding `(level - minLevel) * 16 + 12` |
| Outline.IndentBounds | src/components/Outline/Outline.tsx:64 | every indent is at least 12, and exactly 12 for the shallowest items |
| Outline.OutlineIndentRange | src/components/Outline/Outline.tsx:51-64 | every indent of a document's outline lies between 12 and 92 pixels |
| FilePaths.FileName | src/lib/file.ts:126-128 | the file name is empty only for the empty path |
| FilePaths.Directory | src/lib/file.ts:133-137 | the directory is never empty |
| FilePaths.NoSeparator | src/lib/file.ts:126-137 | without a separator, the file name is the whole path and the directory is "." |
| FilePaths.FileNameAfterLastSeparator | src/lib/file.ts:126-128 | the file name is what follows the last '/' or '\', or the whole path when nothing follows it |
| FilePaths.DirectoryBeforeLastSeparator | src/lib/file.ts:133-137 | the directory is what precedes the last separator, with every '\' made '/', or "." when that is empty |
| FilePaths.TopLevelDirectory | src/lib/file.ts:133-137 | "a.md" and "/a.md" both lie in "." |
| FilePaths.Reassemble | src/lib/file.ts:126-137 | directory + "/" + file name is the path with every '\' made '/', when both parts are non-empty |
| Themes.QuoteName | src/themes/index.ts:83 | a name with a space is wrapped in double quotes; any other name is unchanged |
| Themes.Fonts | src/themes/index.ts:82 | the family first, then the fallbacks in order |
| Themes.BuildFontFamily | src/themes/index.ts:81-84 | `buildFontFamily`: the family then the fallbacks, each quoted when it holds a space, joined by ", " |
| Themes.FontFamilyEntries | src/themes/index.ts:81-84 | with comma-free names, splitting the result on ',' gives 1 + fallbacks entries: the quoted family, then each quoted fallback after a space |
| Themes.FirstIndex | src/themes/index.ts:88 | the first position holding the id, with no earlier one; none exactly when the id is absent |
| Themes.GetTheme | src/themes/index.ts:87-89 | a found theme has the id and is in the table; none exactly when no entry has the id |
| Themes.GetFont | src/themes/index.ts:92-94 | a found preset has the id and is in the table; none exactly when no entry has the id |
| Themes.TablesFindEveryEntry | src/themes/index.ts:11-50 | the theme and font ids are distinct, so every entry is found by its own id |
| ExportHtml.EscapeChar | src/lib/export.ts:187-194 | each of & < > " ' maps to &amp; &lt; &gt; &quot; &#039;; any other character to itself |
| ExportHtml.EscapeHtml | src/lib/export.ts:186-195 | `escapeHtml`: every character replaced by its entry in the five-entry table, the others kept; the result is never shorter |
| ExportHtml.EscapeAppend | src/lib/export.ts:194 | escaping distributes over concatenation, so characters keep their order |
| ExportHtml.EscapePlain | src/lib/export.ts:194 | a text without special characters is unchanged |
| ExportHtml.EscapedHasNoMarkup | src/lib/export.ts:194 | the result contains none of < > " ' |
| ExportHtml.UnescapeEscape | src/lib/export.ts:186-195 | decoding the five entities of the escaped text gives the text back |
| ExportHtml.GetThemeStyles | src/lib/export.ts:298-322 | non-empty exactly for the three wechat themes, each with its accent colour; "" for github and every other id |
| ExportHtml.StylesFollowThemeTable | src/lib/export.ts:298-322 | a theme adds no styles exactly when it is github or not in the theme table |
| Ico.U16RoundTrip | scripts/generate-ico.cjs:10-12 | reading back a little-endian u16 gives the value written |
| Ico.U32RoundTrip | scripts/generate-ico.cjs:25-26 | reading back a little-endian u32 gives the value written |
| Ico.CreateIcoHeader | scripts/generate-ico.cjs:8-14 | the new 6-byte buffer holds u16le 0, 1 and the image count |
| Ico.HeaderFields | scripts/generate-ico.cjs:8-14 | the header's three fields read back as 0, 1 and the count |
| Ico.DimByte | scripts/generate-ico.cjs:19-20 | a width or height of 256 is written as 0, any smaller one as itself |
| Ico.CreateIcoDirEntry | scripts/generate-ico.cjs:17-28 | the eight writes leave the 16-byte entry: width, height, 0, 0, planes, bits per pixel, size, offset |
| Ico.DirEntryFields | scripts/generate-ico.cjs:17-28 | the entry's fields read back: width and height bytes, bytes 2 and 3 zero, planes 1, 32 bits, size, offset |
| Ico.GenerateIco | scripts/generate-ico.cjs:44-61 | the offset loop and the concatenation give header, entries, then images |
| Ico.OffsetNext | scripts/generate-ico.cjs:50-53 | each next offset is the previous offset plus the previous image length |
| Ico.FirstOffset | scripts/generate-ico.cjs:45-47 | the first image starts at 6 + 16n |
| Ico.IcoLength | scripts/generate-ico.cjs:56-61 | the file is 6 + 16n bytes plus all image lengths |
| Ico.EntryAt | scripts/generate-ico.cjs:56-61 | entry i is the 16 bytes at 6 + 16i |
| Ico.ImageAt | scripts/generate-ico.cjs:44-61 | image i lies at its computed offset |
| Ico.EntryPointsAtImage | scripts/generate-ico.cjs:44-61 | reading entry i gives the image's length and an offset where exactly its bytes are found |
| Ico.StandardIconLayout | scripts/generate-ico.cjs:31-47 | for the six icon sizes the images start at byte 102, and the 256-pixel entry writes 0 |
| EditorStore.InitialState | src/stores/editor.ts:35-52 | the default document, "untitled.md", not modified, theme github, font size 16, both panes shown |
| EditorStore.SetContentMarksModified | src/stores/editor.ts:37 | setContent sets the content and marks it modified, and nothing else changes |
| EditorStore.TogglesFlipOneFlag | src/stores/editor.ts:53-54 | each toggle flips exactly its own flag; applied twice it is the identity, and the two toggles commute |
| EditorStore.ResetKeepsPreferences | src/stores/editor.ts:56-60 | reset restores content, file name and modified flag, keeps the preferences, and is idempotent |
| EditorStore.ResetForgetsEdits | src/stores/editor.ts:37-60 | edits and renames are forgotten by a reset |
| EditorStore.SettersStoreVerbatim | src/stores/editor.ts:45-49 | font size and theme are stored as given, with no clamping or validation |
| EditorStore.Store.constructor | src/stores/editor.ts:35-52 | a new store is in the initial state |
| EditorStore.Store.SetContent | src/stores/editor.ts:37 | the store moves to the state setContent gives |
| EditorStore.Store.SetFileName | src/stores/editor.ts:40 | only the file name changes |
| EditorStore.Store.SetIsModified | src/stores/editor.ts:43 | only the modified flag changes |
| EditorStore.Store.SetTheme | src/stores/editor.ts:46 | only the theme changes |
| EditorStore.Store.SetFontSize | src/stores/editor.ts:49 | only the font size changes |
| EditorStore.Store.ToggleEditor | src/stores/editor.ts:53 | only the editor flag flips |
| EditorStore.Store.TogglePreview | src/stores/editor.ts:54 | only the preview flag flips |
| EditorStore.Store.Reset | src/stores/editor.ts:56-60 | the store moves to the reset state |

## Left out

- Timers and scheduling are not modelled. This covers `debounce`, `throttle`, `requestIdleCallback`, `setTimeout`, `requestAnimationFrame`, the lazy imports and the Preview debounce timers. The model keeps only the delay values.
- `performance.now()` is not called. The measured parse time is a parameter (`elapsed`).
- `parseMarkdown` (marked and highlight.js) is not modelled. It is the parameter `parse: string -> string`.
- KaTeX and Mermaid rendering, the DOM and React state plumbing are not modelled. A block view keeps only its rendered flag, its HTML and the shared counter.
- `IntersectionObserver` and its 200 px margin are not modelled. Visibility is the argument `isIntersecting`.
- Worker creation through `Blob` and `Function.toString` is not modelled. Whether a worker could be created is the argument `created`.
- Cross-thread delivery is not modelled. Responses are arbitrary sequences in arbitrary order, fed to the id guard.
- `MarkdownWorker.HandleMessage`: the only throw the parser can raise is on a payload that is not a string, so an exception is modelled as the content `None`.
- `DEFAULT_MARKDOWN` is a parameter (`defaultMarkdown`). src/lib/markdown.ts is not part of this model.
- Lengths count Unicode code points, while JavaScript's `length` counts UTF-16 code units. The size thresholds, `slice(0, 100)` and the delays therefore differ on text outside the Basic Multilingual Plane.
- Heights, progress and parse times use exact reals rather than IEEE doubles. `Math.round` is modelled as floor(x + 0.5).
- `EditorStore`: `fontSize` is an unbounded `int`, not a double.
- `ExportHtml.GetThemeStyles`: ids that are keys of `Object.prototype` (such as "constructor") are not modelled. In JavaScript `themes[theme]` then yields a function, not "".
- `Ico`: Node's `writeUInt*` throw a RangeError for values out of range. The writers and the file instead require values in range (`Encodable`), which every call in the script meets.
- Reading the icon PNG, `sharp` resizing and `fs.writeFileSync` are not modelled. The images are a parameter; scripts/generate-icons.cjs is not part of this model.
- `Outline.CarriageReturnLineHasNoItem`: with CRLF line ends, no outline line matches at all. This is the program's behaviour under JavaScript's `.`, and is stated rather than changed.
- `RenderCache.Preview.HandleBlockVisible`: the counter is never reset or capped, so it may exceed the number of blocks after a re-parse. `RenderCache.ProgressMeaning` states the 0..100 bound only while the count does not exceed the total.
- `SegmentProps.FenceInDocument`, `SegmentProps.MathInDocument`, `SegmentProps.UnclosedFenceInDocument` and `SegmentProps.TableInDocument` require of the lines before the construct only the state they leave: no code block (fences), no math block (`$$`), or no region and no table (tables).
- `SegmentProps.SegmentDropsOnlyBlankLines`: states only that dropped lines are blank. With nested regions a blank line read inside a region can be dropped: in the lines ```` ``` ````, `$$`, ```` ``` ````, blank, the closing fence flushes while the math flag stays set, and the blank line is then read with the math flag set and an empty buffer, which the final flush drops (`SegmentProps.NestedRegionsDropBlank`). `SegmentProps.SegmentKeepsLines` gives the exact form when regions do not nest.
- `SegmentProps.InterruptedTableInDocument`: the table flag that a region leaves set is stated as the code has it, not corrected.
- `MarkdownWorker.ClearedDocumentStaysParsing`: the flag that empty content leaves set is stated as the code has it, not corrected.
- `SegmentProps.TableInDocument` states the table that a non-pipe line ends, whether it is a plain line, a fence or a `$$` line. A table running to the end of the input is stated by `SegmentProps.TableAtEndOfDocument`.
- File and export I/O is not modelled: Tauri dialogs and fs, Blob downloads, `html2canvas`, printing and `generateFullHTML`. The same goes for `useAutoSave` and src/lib/image.ts.
- UI components are not modelled: Editor, ThemeSelector, Toolbar and App.
- `getCachedRender` is a function reading the cache, so it cannot change the cache or its order. It carries no contract of its own; `RenderCache.CachedAfterStore` and `RenderCache.RenderMeaning` state what it returns.
