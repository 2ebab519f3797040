# Properties of the eli agent runtime

A Dafny model of the parts of eli whose correctness does not show from reading one function at a
time: the streaming find-and-replace behind `fs.edit`, the splitting of long replies, the governed
self-evolution of rules, skills and policies with its automatic loop, the tape file cache and tape
forks, the state of the Feishu channel, prompt truncation, the per-tool circuit breaker, and shell
quoting. `dafny verify dfyconfig.toml` checks it.

Code that changes state step by step is a class or a method with loops, proved against functions of
its inputs and old state; the lemmas are about those functions, over all inputs, all runs or all
interleavings.

| module | models |
|---|---|
| `Sequences` | what is kept of a sequence, and texts laid out one after another: relations without functions |
| `Utf8`, `Utf8Text`, `StreamEdit` | bytes with character boundaries; their encoding; line reader, rolling buffer, edit of a file |
| `ShellQuote` | quoting of a word, and a reader of quoted words |
| `Unicode`, `Fences`, `ChunkText`, `ChunkCuts`, `ChunkProperties`, `ChunkBounds` | text with UTF-8 sizes; the fence scanner; splitting, where it cuts, what it guarantees, and how tight its conditions are |
| `Tape`, `TapeFile`, `TapeRuns`, `TapeResets` | entries; the file cache; several caches on one file; runs with resets |
| `ForkTape`, `ForkRuns` | queries and the overlay of a fork; stores and whole forks |
| `Feishu`, `Debounce`, `InflightRuns`, `FeishuChannel` | dedup window, batches, in-flight queues; messages racing with timers; batches in flight; the shared state |
| `PromptBudget` | truncation by priority |
| `CircuitBreaker` | calls that begin and finish in any interleaving |
| `Sorting`, `Evolution`, `Fingerprints`, `Bundles`, `BundleTexts`, `Store` | listings in order; candidates, records, canaries, texts; which candidates pass for the same; bundles and what they hold; the store |
| `StoreRuns`, `StoreFiles`, `PromotedTexts`, `BundleRuns`, `Orphans`, `Journals` | runs of store operations: statuses, target files and what stands in them, bundles, policies where one does not parse, and the journal |
| `AutoCycle`, `CycleRuns`, `AutoLoop`, `AutoRuns`, `CycleExact`, `Drafting`, `Reports`, `LoopRuns`, `Promotions` | one automatic cycle; cycles as runs; what the loop maintains; its stages; exactly when a cycle fails; what it drafts and gathers, and what it reports; runs of cycles; how candidates come to be promoted |

Where the code does not do what its documentation says, the model follows the code:

- `chunk_text` promises chunks of at most `cap` bytes (crates/eli/src/channels/text.rs:75-76). A chunk
  whose fence is closed may take 4 bytes more, up to 6 where a tag fills the chunk it stands in, and
  the last one its own opener more, which takes at most `cap + 1` bytes. No chunk exceeds that
  (`ChunkBounds.ChunksNearCap`, `ChunkBounds.LongTagOverflows`), and 4 bytes are enough for all texts
  exactly when the cap is at least 5 bytes larger than the longest tag (`ChunkBounds.ChunksFitTight`).
- Its loop need not end: where an opener leaves no room for the next character it consumes nothing,
  for ever (`ChunkProperties.StuckExactly`, `ChunkBounds.ChunkEndsTight`).
- A comment there says that a multi-byte character ends a fence's tag
  (crates/eli/src/channels/text.rs:55-57). It does not; tags end at a newline or a backtick.
- `truncate_chars` takes its limit as characters by name, measures bytes, and may return up to 3
  bytes more than the limit, in which case it ends with an ellipsis
  (`PromptBudget.TruncatedWithinLimit`).
- The generation counter of a batch is described as race-free
  (crates/eli/src/channels/feishu.rs:145-147). It starts again at 1 after a flush, so a stale timer
  can flush a later batch early: exactly when a later timer of the chat still sleeps. Nothing is lost
  or duplicated by it (`Debounce.StaleTimerFlushesEarly`, `Debounce.QuietExactly`,
  `Debounce.NothingLost`).
- A promotion or a rollback of a policy is not undone when the bundle cannot be made because some
  policy file does not parse (crates/eli/src/evolution.rs:491-511, 652-663): the target stays written
  or restored, and the candidate where it was (`StoreFiles.FailedPromotionExactly`,
  `StoreFiles.RollbackFailsExactly`, `Orphans.RunStrands`).
- A title is hashed up to its last line and the content right after it
  (crates/eli/src/evolution.rs:1345-1360), so two rules whose titles go over several lines can pass for
  the same although their texts differ (`Fingerprints.LongTitlesCollide`); with titles of one line
  they cannot (`Fingerprints.SameTexts`).

Assumed of libraries: an entry prints as one trimmed line of text and parses back
(`TapeFile.Faithful`); a rendered policy parses back (`Evolution.Faithful`); fingerprints are the
hashed text itself, that is, hashing is injective; identifiers of candidates are fresh; times are
integers passed in.

## Model

| member | source | states |
|---|---|---|
| StreamEdit.ReplaceStream | crates/eli/src/builtin/tools.rs:690-727 | reading line by line through a buffer, it writes exactly the replacement over the whole text and returns whether something was replaced, however matches straddle lines; it fails iff it comes to a line that is not UTF-8 |
| StreamEdit.UnreadableExactly | crates/eli/src/builtin/tools.rs:690-727 | that is, iff some line that is not UTF-8 does not come after the line in which the wanted occurrence ends |
| StreamEdit.GapsSplit | crates/eli/src/builtin/tools.rs:702-719 | every text splits at leftmost, non-overlapping occurrences of the searched text |
| StreamEdit.SplitUnique | crates/eli/src/builtin/tools.rs:702-719 | that split is unique, so "the k-th match" is well defined |
| StreamEdit.EditExchangesSeparators | crates/eli/src/builtin/tools.rs:701-719 | the whole-text replacement is the gaps of that split with every separator, or only number `occurrence`, exchanged, and it reports a replacement iff there is such a separator |
| StreamEdit.StepOverFlush | crates/eli/src/builtin/tools.rs:646-658 | flushing all but one byte less than the searched text changes no outcome, whatever follows |
| StreamEdit.StepOverMatch | crates/eli/src/builtin/tools.rs:702-719 | handling the first match in the buffer is one step of the whole-text replacement |
| StreamEdit.FlushablePrefixLen | crates/eli/src/builtin/tools.rs:638-644 | the cut leaves at least `keep` bytes, lies on a character boundary, and is the last such |
| StreamEdit.FlushPending | crates/eli/src/builtin/tools.rs:646-658 | writes the flushable prefix and keeps the rest, valid text |
| StreamEdit.LineReader.ReadLine | crates/eli/src/builtin/tools.rs:498-504 | yields the next line with its newline, the end, or an encoding error |
| StreamEdit.CopyPrefixLines | crates/eli/src/builtin/tools.rs:675-688 | copies exactly the first `start` lines and leaves the reader after them, or fails iff they are not UTF-8 |
| StreamEdit.PrefixEndsAfterNewline | crates/eli/src/builtin/tools.rs:675-688 | the first `start` lines hold `start` newlines and end with one, unless the text has fewer |
| StreamEdit.EditTextFile | crates/eli/src/builtin/tools.rs:729-746 | on valid text the file becomes its first lines followed by the replaced rest iff a match was replaced; every error leaves it untouched and says which one it is, an encoding error iff such a line is read |
| Utf8.OccurrenceOnBoundaries | crates/eli/src/builtin/tools.rs:638-644 | valid text occurs inside valid text only on character boundaries, so no slice of the edit can panic |
| Utf8Text.ValidExactly | crates/eli/src/builtin/tools.rs:498-504 | the byte strings accepted as text are exactly the UTF-8 encodings of texts |
| ShellQuote.QuoteIsRead | crates/eli/src/builtin/tools.rs:112-122 | a shell reading the quoted string gets exactly the original, whatever follows it |
| ShellQuote.QuoteAllRoundTrips | crates/eli/src/builtin/tools.rs:112-122 | a command line of quoted arguments splits into exactly those arguments |
| ShellQuote.QuotesOnlyIfNeeded | crates/eli/src/builtin/tools.rs:112-122 | exactly the non-empty strings of ASCII letters, digits and `_-./=` are left without quotes |
| Fences.UnclosedFenceTag | crates/eli/src/channels/text.rs:41-65 | the scanning loop returns the last tag iff the number of fences met is odd |
| Fences.UnclosedTagIsLast | crates/eli/src/channels/text.rs:41-65 | the scan, from left to right, meets each fence that no earlier fence or its tag reaches into; what is unclosed is the text after the last one met, up to a newline, a backtick or the end, iff an odd number was met |
| Fences.ScanUnique | crates/eli/src/channels/text.rs:41-65 | there is only one such scan |
| Fences.ScannerCountsRuns | crates/eli/src/channels/text.rs:41-65 | the scanner meets one fence for every three backticks of a run, whatever the tags |
| Fences.SeveringLosesOne | crates/eli/src/channels/text.rs:102-107 | a cut inside a run of backticks loses one fence exactly when it separates the three of it |
| ChunkText.CharsFittingBytes | crates/eli/src/channels/text.rs:13-23 | counts the leading characters that fit a number of bytes |
| ChunkText.LastIndexOf | crates/eli/src/channels/text.rs:27-35 | the greatest start of the searched text up to an index, if any |
| ChunkText.StripLeadingWs | crates/eli/src/channels/text.rs:68-74 | drops exactly the leading whitespace |
| ChunkText.Chunk | crates/eli/src/channels/text.rs:80-129 | the loop renders the pieces of the text, or has reached a state it never leaves; where the pieces are cut is `ChunkCuts.RepliesAreWellCut` |
| ChunkCuts.RepliesAreWellCut | crates/eli/src/channels/text.rs:93-118 | every chunk but the last, of what fits beside its opener, ends at the last paragraph end in the second half, else at the last line end there, else at the last blank there, else takes all of it; all whitespace after the cut, and nothing else, is dropped; the last chunk is what is left once it fits |
| ChunkCuts.CutAtCutsWell | crates/eli/src/channels/text.rs:102-106 | the same of one cut, given how many characters fit |
| ChunkCuts.FittingExactly | crates/eli/src/channels/text.rs:13-23 | those that fit are the greatest number of leading characters whose bytes the room holds |
| ChunkProperties.TextConserved | crates/eli/src/channels/text.rs:93-128 | the pieces without openers and closers, with the dropped whitespace between them, are the text |
| ChunkProperties.FencesSafe | crates/eli/src/channels/text.rs:110-127 | every chunk but the last holds an even number of fences, and a closed one is followed by one that reopens the same tag |
| ChunkProperties.LastChunkParity | crates/eli/src/channels/text.rs:93-128 | the chunks end inside a fence as the text does, iff the cuts that separated the backticks of a fence are even in number |
| ChunkProperties.ChunksFit | crates/eli/src/channels/text.rs:93-128 | where every tag leaves room for an opener and a byte, chunks take at most the cap, 4 bytes more when closed, and the last one its opener more |
| ChunkProperties.FencelessChunksFit | crates/eli/src/channels/text.rs:75-128 | without fences every chunk takes at most the cap |
| ChunkProperties.ClosedChunkExceedsCap | crates/eli/src/channels/text.rs:110-117 | a first chunk that has to be closed takes exactly 4 bytes more than the cap |
| ChunkBounds.ChunkSizes | crates/eli/src/channels/text.rs:93-128 | for every text and cap an opener exceeds the cap by at most a byte, a chunk takes the cap or one byte beside an opener that fills it, 4 bytes more when closed, and the last one its own opener more |
| ChunkBounds.ChunksNearCap | crates/eli/src/channels/text.rs:75-128 | so no chunk before the last exceeds the cap by more than 6 bytes, nor the last one twice the cap by more than a byte |
| ChunkBounds.LongTagOverflows | crates/eli/src/channels/text.rs:93-118 | a tag that fills the first chunk makes the second exceed the cap by exactly 6 bytes |
| ChunkBounds.ChunksFitTight | crates/eli/src/channels/text.rs:93-128 | a closing fence is all by which chunks of texts with tags up to a length exceed the cap, iff the cap is at least 5 bytes larger than that length, or 1 or 2 |
| ChunkProperties.StuckExactly | crates/eli/src/channels/text.rs:93-118 | an iteration consumes nothing iff the next character is no whitespace and wider than the room beside the opener |
| ChunkProperties.StuckIsFixpoint | crates/eli/src/channels/text.rs:93-118 | such an iteration leaves the loop in the state it was in |
| ChunkProperties.ChunkEnds | crates/eli/src/channels/text.rs:93-118 | splitting ends whenever the cap has room for an opener with the longest tag and the widest character |
| ChunkBounds.ChunkEndsTight | crates/eli/src/channels/text.rs:93-118 | all texts with tags and characters up to given sizes are split in the end iff characters take one byte, or the cap has room for an opener with such a tag and such a character, or, below 3 bytes, for such a character |
| ChunkProperties.ChunkEndsWithRoom | crates/eli/src/channels/text.rs:93-118 | for every text, 8 bytes beyond the longest tag are enough |
| ChunkProperties.FencelessEndsExactly | crates/eli/src/channels/text.rs:93-118 | a text without fences is split for ever iff it exceeds the cap and holds a character, no whitespace, wider than the cap |
| ChunkProperties.LongTagLoops | crates/eli/src/channels/text.rs:93-118 | a tag that fills the first chunk followed by a wide character makes the loop endless |
| TapeFile.TapeFile.ReadNewEntries | crates/eli/src/builtin/store.rs:348-373 | the line loop adds exactly the entries of the lines counted past the offset |
| TapeFile.LineIsWorth | crates/eli/src/builtin/store.rs:348-373 | a line of the file, with its newline and a carriage return before it cut off and trimmed, is worth the entry it parses to, and nothing where it is not UTF-8, blank or malformed |
| TapeFile.TapeFile.Read | crates/eli/src/builtin/store.rs:333-346 | a cache in step with the file holds the parse of the whole file afterwards, and its length |
| TapeFile.TapeFile.Append | crates/eli/src/builtin/store.rs:375-391 | the file's parse grows by the stored entry, and the cache stays up to date |
| TapeFile.TapeFile.Reset | crates/eli/src/builtin/store.rs:304-331 | the file is gone and the cache in step with that |
| TapeFile.ReadCatchesUp | crates/eli/src/builtin/store.rs:333-373 | incremental reading equals parsing the whole file |
| TapeFile.AppendAdds | crates/eli/src/builtin/store.rs:295-297 | an appended entry carries the id after the last one of the file, and parses back |
| TapeFile.AppendKeepsSynced | crates/eli/src/builtin/store.rs:375-391 | an append by one instance leaves every other cache a prefix of the file |
| TapeFile.ReadIsRightExactly | crates/eli/src/builtin/store.rs:339-373 | whatever a cache holds, reading a clean file is right iff the file is shorter than the offset or the cache holds the lines that end within it: a reset by another instance is noticed only then |
| TapeFile.RacingReadDuplicates | crates/eli/src/builtin/store.rs:339-373 | a line appended between measuring the file and reading it is counted twice |
| TapeRuns.CachesAgree | crates/eli/src/builtin/store.rs:295-391 | over any interleaving of appends and reads by several instances, the file parses to its first entries and all appended ones, numbered on, and every cache is a prefix of that |
| TapeRuns.ReadsSeeEverything | crates/eli/src/builtin/store.rs:333-391 | a read at any point of such a run gives everything appended before it, whoever appended it |
| TapeRuns.IdsCount | crates/eli/src/builtin/store.rs:295-297 | on a tape that started empty entry number k carries id k |
| TapeResets.AloneReadsSeeEverything | crates/eli/src/builtin/store.rs:295-391 | over any run of reads, appends and resets by one instance, a read gives what was appended since the last reset, numbered from 1, or the first entries and all appended ones where there was none |
| TapeResets.ResetRunsAgree | crates/eli/src/builtin/store.rs:295-391 | the same of several instances as long as each that reads or appends notices the resets of the others; a read then gives it iff its instance finds the file gone, shorter than what it counted, or with the lines it knows |
| TapeResets.ResetLeavesBehind | crates/eli/src/builtin/store.rs:304-331 | a reset leaves in step with the file the instance that made it and exactly those others that had counted nothing of it |
| TapeResets.InStepUntilReset | crates/eli/src/builtin/store.rs:295-391 | an instance in step stays so, and notices, until another one resets the file |
| ForkTape.LastMatch | crates/nexil/src/tape/store.rs:51-71 | the greatest index of an anchor the query selects, if any |
| ForkTape.OfKindsKeeps | crates/eli/src/builtin/store.rs:84-101 | the kind filter keeps exactly the entries whose kind is asked for, all where none is, in order |
| ForkTape.OverlayAgreesExactly | crates/eli/src/builtin/store.rs:69-104 | a fetch inside a fork equals the fetch of one flat log iff it selects no anchor, or a selected anchor exists and the kind filter lets nothing from before the fork's through |
| ForkTape.OverlayFromBoundary | crates/eli/src/builtin/store.rs:84-101 | only what follows the last visible boundary in the fork survives, the parent's entries do not |
| ForkRuns.ForkTapeStore.FetchAll | crates/eli/src/builtin/store.rs:69-104 | the loop with its two clearings computes the overlay, with the parent's answer dropped after a reset in the fork |
| ForkRuns.ForkTapeStore.Reset | crates/eli/src/builtin/store.rs:55-66 | inside a fork a reset of its tape is only marked, any other reaches the parent |
| ForkRuns.ForkTapeStore.Append | crates/eli/src/builtin/store.rs:107-115 | inside a fork every append stays in memory, whatever its tape |
| ForkRuns.ForkTapeStore.BeginFork | crates/eli/src/builtin/store.rs:119-135 | a fork starts empty and not reset |
| ForkRuns.ForkTapeStore.EndFork | crates/eli/src/builtin/store.rs:137-152 | merging appends the fork's entries of its tape one by one, renumbered; else the parent stays as it is |
| ForkRuns.MemoryStore.Append | crates/nexil/src/tape/store.rs:356-381 | numbers from 1 and keeps the newest 10,000 entries of a tape |
| ForkRuns.MemoryHolds | crates/nexil/src/tape/store.rs:336-381 | after any operations in a fork its store holds the newest entries appended since the last reset, numbered from 1 |
| ForkRuns.ViewIsLog | crates/eli/src/builtin/store.rs:69-104 | in any fork a fetch of the whole tape gives the parent's entries, unless reset, and then those |
| ForkRuns.DroppedForkLeavesNothing | crates/eli/src/builtin/store.rs:119-153 | a fork that is dropped changes nothing of its tape; other tapes lose what was reset and gain nothing |
| ForkRuns.MergeKeepsView | crates/eli/src/builtin/store.rs:137-143 | after merging the parent shows what the fork showed, up to ids, iff the fork was not reset or the parent's tape was empty |
| ForkRuns.MergeTouchesOneTape | crates/eli/src/builtin/store.rs:107-143 | entries appended to other tapes inside a fork are lost |
| FeishuChannel.FeishuState.AlreadySeen | crates/eli/src/channels/feishu.rs:170-192 | an id is a duplicate iff it is among the last 1999 of those accepted, at whatever times; the window never holds more than 2000 |
| FeishuChannel.FeishuState.TakeInflight | crates/eli/src/channels/feishu.rs:196-210 | discards exactly the expired batches and takes the oldest alive, first in first out: a step of the in-flight runs |
| FeishuChannel.FeishuState.ShiftInflight | crates/eli/src/channels/feishu.rs:213-220 | takes the oldest batch, expired or not: a step of the in-flight runs |
| Feishu.DropsExactlyExpired | crates/eli/src/channels/feishu.rs:196-205 | sweeping the head of a chronological queue discards all its expired batches and no other |
| FeishuChannel.FeishuState.Enqueue | crates/eli/src/channels/feishu.rs:331-349 | the chat's batch grows by the message under the next generation: a step of the debounce protocol, which arms a timer with the generation returned |
| FeishuChannel.FeishuState.FlushBatch | crates/eli/src/channels/feishu.rs:422-445 | moves the batch to the in-flight queue iff its generation is current, else does nothing: a step of the debounce protocol and, if it flushes, of the in-flight runs |
| InflightRuns.BatchesConserved | crates/eli/src/channels/feishu.rs:196-220 | over any run of flushes, takes and shifts, the batches that left a chat's queue and then those still in it are the flushed ones, each once and in order; a batch swept out had expired, and one taken had not |
| Debounce.NothingLost | crates/eli/src/channels/feishu.rs:331-445 | over any interleaving of messages and timers, each chat's flushed batches and then its waiting items are its messages in order, and a waiting batch has a live timer of its generation |
| Debounce.AllTimersFired | crates/eli/src/channels/feishu.rs:359-445 | once all timers have fired every message was flushed |
| Debounce.QuietExactly | crates/eli/src/channels/feishu.rs:359-445 | in any run every batch is flushed after 1.5 s of silence iff no timer flushes its chat while one armed later for it still sleeps |
| Debounce.EarlyFlushExactly | crates/eli/src/channels/feishu.rs:359-445 | wherever a run has come to, a step flushes a chat too early iff it is such a timer |
| Debounce.OrderedRunsAreQuiet | crates/eli/src/channels/feishu.rs:359-445 | so it is when the timers of each chat fire in order |
| Debounce.StaleTimerFlushesEarly | crates/eli/src/channels/feishu.rs:331-445 | out of order it can be flushed after 90 ms, by a timer of a batch already flushed |
| PromptBudget.TruncateChars | crates/eli/src/prompt_builder.rs:420-434 | keeps the characters that start before the limit, and marks the cut |
| PromptBudget.TruncatedIs | crates/eli/src/prompt_builder.rs:420-434 | a text over its limit becomes the characters that start before the limit less 3 bytes, and an ellipsis; any other stays |
| PromptBudget.TruncatedBytes | crates/eli/src/prompt_builder.rs:420-434 | the result takes at most 3 bytes more than the limit |
| PromptBudget.TruncatedWithinLimit | crates/eli/src/prompt_builder.rs:420-434 | a text that has to be cut stays within the limit iff the limit leaves room for the ellipsis and a character ends right before it |
| PromptBudget.TruncateToBudget | crates/eli/src/prompt_builder.rs:220-246 | in place: sections are emptied in (priority, index) order until the budget is met, at most one is cut, and which is a function of the sections and the cap; the word underflows iff the cap is 0 and nothing is protected |
| PromptBudget.OutcomeIsShortened | crates/eli/src/prompt_builder.rs:220-246 | there is only one such outcome: the one at the first place in the order where the budget is met or a section need not go entirely |
| PromptBudget.OrderSorts | crates/eli/src/prompt_builder.rs:225-227 | the order of truncation lists every section once, by priority and then position |
| PromptBudget.OutcomeFits | crates/eli/src/prompt_builder.rs:220-265 | the joined prompt takes at most 3 bytes more than the cap, or only protected sections are left |
| PromptBudget.ExceedsExactly | crates/eli/src/prompt_builder.rs:220-265 | it exceeds the cap at all iff the section at that place is cut and no character of it ends right before its ellipsis, or, where none is, the protected sections alone exceed it |
| PromptBudget.OutcomeExceedsExactly | crates/eli/src/prompt_builder.rs:220-265 | the same in terms of how the outcome came about |
| PromptBudget.OutcomeByPriority | crates/eli/src/prompt_builder.rs:220-246 | whatever was emptied or cut precedes all that could have been and was not |
| PromptBudget.OutcomeSpares | crates/eli/src/prompt_builder.rs:231-245 | protected sections are untouched, and at most one section keeps part of its text |
| PromptBudget.JoinedBytes | crates/eli/src/prompt_builder.rs:258-265 | the joined prompt takes the bytes of the sections that hold text, and 2 for each separator |
| PromptBudget.JoinedIsPrompt | crates/eli/src/prompt_builder.rs:258-265 | the prompt is the sections that hold text, in order, exactly a blank line between two neighbours, and nothing else |
| PromptBudget.PromptUnique | crates/eli/src/prompt_builder.rs:258-265 | which determines it |
| PromptBudget.RenderedAre | crates/eli/src/prompt_builder.rs:185-214 | what goes into it is, in order, every section with content, cut to its own limit |
| PromptBudget.SizeOfFresh | crates/eli/src/prompt_builder.rs:216-218 | the total the truncation starts from is the size of the joined prompt |
| PromptBudget.Build | crates/eli/src/prompt_builder.rs:156-183 | the prompt is what sources with content, cut to their limits and then to the budget, leave, laid out in order with a blank line between two neighbours; it meets the cap up to 3 bytes, or holds nothing but protected sections |
| CircuitBreaker.Breaker.IsTripped | crates/eli/src/tool_middleware.rs:72-83 | tripped iff the last threshold completions of the tool all failed, the latest less than the timeout ago |
| CircuitBreaker.Breaker.Begin | crates/eli/src/tool_middleware.rs:87-98 | a call is rejected exactly then, and a rejected call leaves no trace |
| CircuitBreaker.Breaker.Finish | crates/eli/src/tool_middleware.rs:100-119 | in any interleaving the counter stays the length of the trailing run of failed completions |
| CircuitBreaker.TrailingFailuresCount | crates/eli/src/tool_middleware.rs:106-117 | the trailing run is at least n long iff the last n completions failed |
| Bundles.FragmentsInOrder | crates/eli/src/evolution.rs:1024-1034 | fragments come in strictly increasing order of file names, each file of the area once |
| Sorting.BeforeExactly | crates/eli/src/evolution.rs:1024-1034 | that order compares names by their first difference, a prefix first |
| Bundles.RefreshAgrees | crates/eli/src/evolution.rs:838-850 | a refresh makes its bundle the one its sources make (`BundleTexts.AgreesExactly` says which), leaves other bundles in agreement, and touches no other file |
| Bundles.PolicyRefreshExactly | crates/eli/src/evolution.rs:1045-1080 | a policy refresh succeeds iff every policy file is blank or parses |
| Bundles.MergedFieldIsLastSet | crates/eli/src/evolution.rs:1416-1426 | a field that each merge takes from the later document, if set there, is the last one set, in the order of the sources; `BundleTexts.MergedIs` says so of all seven |
| BundleTexts.MergedIs | crates/eli/src/evolution.rs:1416-1426 | each of the seven fields of the merged policy is the one of the last document that sets it, none iff no document does |
| BundleTexts.BundleOfIsBundle | crates/eli/src/evolution.rs:1014-1043 | the rules or knowledge bundle is the trimmed texts of the legacy file and then the fragments by name, those that are not blank, each once, exactly a blank line between two neighbours and a newline at the end; nothing iff all are blank |
| BundleTexts.BundleUnique | crates/eli/src/evolution.rs:1014-1043 | which determines it |
| BundleTexts.AgreesExactly | crates/eli/src/evolution/auto.rs:266-274 | so a bundle agrees with its sources iff it is that one |
| BundleTexts.RefreshIsBundle | crates/eli/src/evolution.rs:838-850 | and a refresh of rules or knowledge always goes through and leaves it there |
| BundleTexts.BundleOfIsPolicyBundle | crates/eli/src/evolution.rs:1045-1080 | the policy bundle is the document so merged from the parsed files that are not blank, in their order, or nothing when it sets no field |
| Store.EvolutionStore.Capture | crates/eli/src/evolution.rs:344-419 | refuses a policy that does not parse, then blank texts, and changes nothing; else stores a pending candidate that may not be promoted without an evaluation, its texts what stands between their outer whitespace, its risk and names those of its kind, its fingerprint independent of whitespace around the texts |
| Fingerprints.FingerprintsAgree | crates/eli/src/evolution.rs:1345-1360 | two candidates have the same fingerprint iff their kinds and names are the same, and their trimmed titles and contents one after the other |
| Fingerprints.SameTexts | crates/eli/src/evolution.rs:1345-1360 | with titles of one line: iff their trimmed titles and contents are the same |
| Fingerprints.LongTitlesCollide | crates/eli/src/evolution.rs:1345-1360 | with titles of two lines the same fingerprint can come from different texts |
| Fingerprints.RisksInOrder | crates/eli/src/evolution/auto.rs:604-614 | a limit admits a risk iff that is low, the limit high, or both are medium |
| Evolution.TrimIs | crates/eli/src/evolution.rs:1294-1300 | trimming gives the part between the first and the last character that is no whitespace, nothing iff all are, and the same when repeated |
| Evolution.TrimIsUnique | crates/eli/src/evolution.rs:1294-1300 | that part is determined by the text |
| Store.EvolutionStore.RefreshBundle | crates/eli/src/evolution.rs:838-850 | writes the bundle of the area (`BundleTexts.IsBundle`, `BundleTexts.IsPolicyBundle`) or removes it where its sources give none, and changes nothing when a policy does not parse |
| Store.EvolutionStore.Evaluate | crates/eli/src/evolution.rs:439-453 | only a pending candidate gets the verdict recorded |
| StoreRuns.EvaluationIs | crates/eli/src/evolution.rs:439-453 | an evaluation goes through iff the candidate is pending and, being a policy, parses; then exactly its run and verdict are recorded with it, and no file but the rules bundle changes |
| Store.EvolutionStore.Reject | crates/eli/src/evolution.rs:455-467 | only a pending candidate is rejected |
| Store.EvolutionStore.PromoteCandidate | crates/eli/src/evolution.rs:598-663 | an unforced promotion does not overwrite; the target is written before the bundle is refreshed; `PromotedTexts.PromotionWrites` says what is written |
| Store.EvolutionStore.Promote | crates/eli/src/evolution.rs:469-489 | gate, snapshot, write, record and status, in this order, with each failure's leftovers |
| PromotedTexts.PromotionWrites | crates/eli/src/evolution.rs:1118-1175 | a promotion that goes through leaves at the target of its kind: for a rule what stood there, trimmed, a blank line, and a block of its trimmed title as heading and its trimmed content, unless that block is there already; for knowledge heading, summary and content; for a skill its front matter with name and summary, its title and content; for a policy a document that parses as its content does; and it changes no other file outside the bundles |
| PromotedTexts.PromotionRecords | crates/eli/src/evolution.rs:798-836 | such a promotion keeps a record of the target, of the candidate's latest evaluation, and of a snapshot with exactly the text that stood there, iff there was one |
| PromotedTexts.StandingText | crates/eli/src/evolution.rs:1118-1175 | in any store that tracks, the target of every promoted candidate holds that text, written over what was there at first |
| PromotedTexts.PromotedRuleInBundle | crates/eli/src/evolution.rs:614-663 | there the block of every promoted rule stands in the rules bundle, from which prompts are made, whenever that agrees with its sources |
| Journals.OperationsNote | crates/eli/src/evolution.rs:439-511 | an evaluation, rejection, promotion or rollback that goes through adds exactly its note to the journal and returns the candidate as it is stored then; one that fails adds nothing |
| Journals.FinalizeNotes | crates/eli/src/evolution/auto.rs:226-250 | a canary's promotion adds that of its candidate and its own, under the tape it was last seen on |
| Journals.ObserveNotes | crates/eli/src/evolution/auto.rs:146-172 | an observation reports and notes exactly the Active canaries whose fingerprint turned up, in the order they are listed |
| Journals.ExpireNotes | crates/eli/src/evolution/auto.rs:174-197 | an expiry exactly the Active canaries whose time has come, each after the rejection of its candidate if that was pending |
| Journals.StageNotes | crates/eli/src/evolution/auto.rs:199-224 | a staging notes itself iff there was no canary yet |
| Journals.JournalGrows | crates/eli/src/evolution/auto.rs:252-264 | no run takes anything out of the journal |
| Store.EvolutionStore.RollBack | crates/eli/src/evolution.rs:491-511 | restores the snapshot or absence, then record, bundle and status |
| Store.EvolutionStore.ObserveCanaries | crates/eli/src/evolution/auto.rs:146-172 | returns and stores the Active canaries whose fingerprint was seen, counted once more |
| Store.EvolutionStore.ExpireCanaries | crates/eli/src/evolution/auto.rs:174-197 | returns and stores the Active canaries past their time as expired, and rejects their candidates |
| Store.EvolutionStore.StageCanary | crates/eli/src/evolution/auto.rs:199-224 | a candidate gets at most one canary, ever |
| Store.EvolutionStore.FinalizeCanary | crates/eli/src/evolution/auto.rs:226-250 | a ready or forced canary is promoted with its candidate, or nothing but the attempt remains |
| StoreRuns.ObserveIs | crates/eli/src/evolution/auto.rs:146-172 | an observation changes the Active canaries with a seen fingerprint, by one, and nothing else |
| StoreRuns.ExpireIs | crates/eli/src/evolution/auto.rs:174-197 | expiry changes exactly the Active canaries past their time and their pending candidates |
| StoreRuns.StepMoves | crates/eli/src/evolution.rs:439-511 | every operation, forced or not, moves candidates only from Pending to Rejected or to Promoted to RolledBack, canaries only out of Active, and keeps candidates of ended canaries not pending |
| StoreRuns.RunMoves | crates/eli/src/evolution/auto.rs:146-250 | over any run nothing disappears, changes its content or moves back |
| StoreFiles.FailedPromotionExactly | crates/eli/src/evolution.rs:652-663 | a failed promotion, forced or not, leaves files changed iff a policy that parses was due, its target free or forcibly overwritten with another text, and some other policy file of the workspace does not parse |
| StoreFiles.OrphanIsStuck | crates/eli/src/evolution.rs:469-511 | the target then left behind can neither be promoted over nor rolled back |
| StoreFiles.OrphanedTarget | crates/eli/src/evolution.rs:652-663 | one malformed policy file is enough for that |
| StoreFiles.RollbackFailsExactly | crates/eli/src/evolution.rs:491-511 | a rollback with its record and snapshot in place fails iff it is one of a policy and some policy file left by it does not parse; then the target is restored, the record marked, and the candidate still promoted |
| StoreFiles.RollbackRefused | crates/eli/src/evolution.rs:491-511 | every other failure of a rollback changes nothing |
| Orphans.StartIsStranded | crates/eli/src/evolution.rs:652-663 | a workspace with a malformed policy file and nothing promoted is where the next can start |
| Orphans.RunStrands | crates/eli/src/evolution.rs:469-511 | in any run without force from there no policy is ever promoted, the policy files that were there stay, and every other one is the text of a policy whose promotion failed |
| StoreFiles.StartTracks | crates/eli/src/evolution.rs:815-823 | a store with nothing promoted is where the next can start, whatever its files hold |
| StoreFiles.StepTracksExactly | crates/eli/src/evolution.rs:769-836 | an operation keeps that iff it is no promotion, forced or not, that goes through onto a covered target of a candidate already promoted |
| StoreFiles.RunTracks | crates/eli/src/evolution.rs:769-836 | over any run of such operations, promoted candidates have different targets, and the target files are the first ones plus those of the candidates still promoted; those of policies where every policy file of the workspace parsed at the start |
| StoreFiles.UnforcedRunIsClear | crates/eli/src/evolution.rs:469-511 | every run without force is one |
| StoreFiles.RollbackGoesThrough | crates/eli/src/evolution.rs:491-511 | a promoted rule, skill or piece of knowledge can always be rolled back, and a policy where policy files parsed at the start; its target is then as it was before |
| StoreFiles.RollbackRestores | crates/eli/src/evolution.rs:825-836 | in any store at all, a rollback with its record and snapshot in place restores the target, of a policy where the policies left by it parse |
| StoreFiles.PromotedDecideFiles | crates/eli/src/evolution.rs:469-511 | whatever order promotions and rollbacks came in, the target files so tracked depend only on who is promoted |
| StoreFiles.RollbacksCommute | crates/eli/src/evolution.rs:825-836 | two rollbacks of such candidates succeed in either order and leave the same files outside the bundles |
| StoreFiles.UsurpedRollbacksDiffer | crates/eli/src/evolution.rs:469-511 | after a forced promotion of a skill over a promoted one the two rollbacks leave the first one's text or nothing, by their order |
| StoreFiles.RollbackUndoesPromotion | crates/eli/src/evolution.rs:815-836 | in any store, a promotion that went through, forced or not, can be rolled back iff it was none of a policy or every policy file parsed before; either way the rollback restores every file outside the bundles, bytes or absence |
| BundleRuns.PromotionSetsBundle | crates/eli/src/evolution.rs:614-663 | a promotion that goes through leaves its area's bundle as its sources make it, whatever the bundle was before |
| BundleRuns.RollbackSetsBundle | crates/eli/src/evolution.rs:491-511 | so does a rollback |
| BundleRuns.RollbacksCommuteWholly | crates/eli/src/evolution.rs:491-511 | two rollbacks of candidates tracked lead to the same store in either order but for the journal: files and bundles, statuses, records and snapshots |
| BundleRuns.RunAgrees | crates/eli/src/evolution.rs:614-663 | over any run, forced promotions and failures included, every bundle is what its sources make, or absent when that is empty, unless it is that of policies and some policy file does not parse |
| BundleRuns.RunBundlesHold | crates/eli/src/evolution.rs:614-663 | that is, after any run the rules and knowledge bundles hold their sources' texts as `BundleTexts.BundleOfIsBundle` lays them out, and the policy bundle the merged document where every policy file parses |
| BundleRuns.EvaluationRefreshes | crates/eli/src/evolution.rs:439-453 | evaluating a rule leaves that rules bundle, whatever the verdict; evaluating anything else changes no file |
| BundleRuns.StepFollows | crates/eli/src/evolution.rs:838-859 | an operation that leaves a policy file that does not parse keeps the policy bundle as it was |
| BundleRuns.BundleIsLastMade | crates/eli/src/evolution.rs:838-859 | so over any run such a bundle is the one its sources made when they last made one |
| BundleRuns.ChangeThenRefresh | crates/eli/src/evolution.rs:838-859 | a change of one target and a refresh, successful or not, bring every bundle back into agreement |
| AutoCycle.DraftCandidates | crates/eli/src/evolution/distill.rs:217-239 | the loop gives the distillation of the specs; `Drafting.DistilledExactly` says what that is |
| Drafting.DistilledExactly | crates/eli/src/evolution/distill.rs:217-239 | where no text is blank, each spec becomes the pending rule of its trimmed texts under the next identifier; those whose fingerprint some stored candidate has are skipped and the others drafted, each in order |
| Drafting.DraftsAreNew | crates/eli/src/evolution/distill.rs:227-235 | no draft has a stored fingerprint, and each skipped one is stored |
| Drafting.CycleAddsNew | crates/eli/src/evolution/auto.rs:276-332 | every candidate a cycle adds, failing or not, has a fingerprint that no candidate had before it |
| Drafting.FoundExactly | crates/eli/src/evolution.rs:579-596 | a pending candidate is found for its fingerprint iff it is the newest one with it |
| Drafting.GatheredExactly | crates/eli/src/evolution/auto.rs:334-357 | the candidates a cycle judges are its drafts and, for each skipped fingerprint, the newest pending candidate with it |
| Drafting.SettledIsLeftAlone | crates/eli/src/evolution/auto.rs:334-357 | so a rule promoted, rejected or rolled back is neither judged nor drafted again by a cycle that distils it once more |
| Drafting.SeenExactly | crates/eli/src/evolution/auto.rs:334-357 | the fingerprints a cycle sees are exactly those of its specs |
| AutoCycle.PersistCandidates | crates/eli/src/evolution/distill.rs:392-412 | stores every draft |
| AutoCycle.CandidatesForCycle | crates/eli/src/evolution/auto.rs:334-357 | the drafts and the pending candidates found for the skipped fingerprints, each once |
| AutoCycle.EvaluateCandidates | crates/eli/src/evolution/auto.rs:359-379 | evaluates in order up to the first failure |
| AutoCycle.PromoteDirectCandidates | crates/eli/src/evolution/auto.rs:415-445 | promotes in order the candidates fit for it, up to the first failure |
| AutoCycle.StageCandidates | crates/eli/src/evolution/auto.rs:390-413 | stages in order the candidates fit for it that have no Active canary |
| AutoCycle.PromoteReadyCanaries | crates/eli/src/evolution/auto.rs:447-454 | finalizes the ready canaries in order of candidates, up to the first failure |
| AutoCycle.RunAutoCycle | crates/eli/src/evolution/auto.rs:276-332 | one cycle, with what each stage leaves behind when a later one fails; what it drafts, gathers, promotes and reports is stated by `Drafting`, `CycleExact`, `Promotions` and `Reports` |
| CycleRuns.FoundIfStored | crates/eli/src/evolution.rs:579-596 | a stored fingerprint is found, and found pending if any candidate with it is |
| CycleRuns.DistilledGather | crates/eli/src/evolution/auto.rs:334-357 | the candidates of a cycle are stored, pending rules, each once, with fingerprints the cycle saw |
| CycleRuns.CycleLeads | crates/eli/src/evolution/auto.rs:276-332 | a cycle is a run of store operations, none of them forced |
| AutoLoop.RuleGate | crates/eli/src/evolution.rs:1256-1264 | a pending rule is promoted without force iff its gate is open, and nothing happens if not |
| AutoLoop.FinalizeExactly | crates/eli/src/evolution/auto.rs:226-250 | a ready canary of a rule is promoted iff its candidate is pending and its gate open; candidate and canary move together, or not at all, and nothing else does |
| AutoRuns.EvaluateAllIs | crates/eli/src/evolution/auto.rs:359-379 | evaluation of a cycle's candidates never fails, whatever the verdicts, and gives each its run and its verdict |
| AutoRuns.PromoteAllIs | crates/eli/src/evolution/auto.rs:415-445 | direct promotion never fails, and promotes exactly the candidates fit for it |
| AutoRuns.StageAllIs | crates/eli/src/evolution/auto.rs:390-413 | staging never fails; canaries that were there stay, and exactly the candidates on probation without one get one |
| AutoRuns.FinalizeAllExactly | crates/eli/src/evolution/auto.rs:447-454 | promoting what is ready changes the ready canaries of rules and their candidates in order up to the first that is blocked, and fails iff one is |
| AutoRuns.ReadyFailsExactly | crates/eli/src/evolution/auto.rs:447-454 | so it fails iff the candidate of some ready canary is no longer pending or its gate is closed |
| AutoLoop.StartIsGood | crates/eli/src/evolution/auto.rs:138-140 | a store without canaries satisfies the invariant of the loop under a stable evaluator |
| AutoLoop.StartIsSteady | crates/eli/src/evolution/auto.rs:138-140 | and the one under any evaluator |
| CycleExact.JudgedFailsExactly | crates/eli/src/evolution/auto.rs:276-332 | from its candidates on a cycle fails iff the store before it has a canary that will be ready after this observation and expiry, and whose candidate is not pending, or is one of the cycle's and promoted directly or judged negatively, or is none of them and has its gate closed |
| CycleExact.CycleFailsExactly | crates/eli/src/evolution/auto.rs:276-332 | a whole cycle fails iff some text of a draft is blank or such a canary is in the store, for any evaluator and policy |
| CycleExact.CycleAges | crates/eli/src/evolution/auto.rs:276-332 | every cycle, failing or not, keeps the loop's invariant, and a canary is observed, then expired, then promoted, only as it should; one that goes through does all of it, and reports only promotions and stagings the policy allows |
| CycleExact.OverdueExactly | crates/eli/src/evolution/auto.rs:174-224 | after a cycle whose texts are not blank, an Active canary has expired iff its time had come, and then its candidate is no longer pending |
| Reports.CycleReportsExactly | crates/eli/src/evolution/auto.rs:276-332 | a cycle that goes through reports its candidates with their runs, its direct promotions, its stagings and the ready canaries: exactly those, each in its order |
| Reports.FinalizeAllStops | crates/eli/src/evolution/auto.rs:447-454 | where promoting what is ready fails, the canaries listed before the first blocked one were promoted and the others are as they were |
| Reports.ListedInOrder | crates/eli/src/evolution/auto.rs:447-454 | canaries are listed by the identifiers of their candidates |
| LoopRuns.CycleGood | crates/eli/src/evolution/auto.rs:276-332 | under one policy and a stable evaluator a cycle goes through, keeps the invariant, and ages every canary as it should |
| LoopRuns.SeenOnceMorePromotes | crates/eli/src/evolution/auto.rs:311-330 | and the observation that was missing promotes a canary in the cycle it comes in |
| LoopRuns.LoopGood | crates/eli/src/evolution/auto.rs:276-332 | so does every cycle of any run of them |
| LoopRuns.LoopSteady | crates/eli/src/evolution/auto.rs:276-332 | the loop's invariant survives any run of cycles, for any evaluator and policies, failing cycles included |
| LoopRuns.ActiveMeansPending | crates/eli/src/evolution/auto.rs:390-454 | after any run under one policy and a stable evaluator every Active canary's candidate is pending with a passing evaluation |
| LoopRuns.DirectNeverStaged | crates/eli/src/evolution/auto.rs:456-479 | a cycle that goes through reports no candidate both as promoted directly and as staged |
| Promotions.CanariesAreNeverDirect | crates/eli/src/evolution/auto.rs:456-479 | in any run of cycles under one policy, a candidate that ever had a canary was fit for direct promotion in no cycle |
| LoopRuns.DirectWasFit | crates/eli/src/evolution/auto.rs:469-479 | and a direct promotion it reports had a passing run of at least the minimum score, and a risk within the direct limit |
| Promotions.CyclePromotesExactly | crates/eli/src/evolution/auto.rs:276-332 | a cycle, failing or not, promotes exactly those of its candidates with a passing run of at least the minimum score, enough evidence and a risk within the direct limit, and those whose canaries it promotes |
| Promotions.EveryPromotionWasFit | crates/eli/src/evolution/auto.rs:447-479 | for any evaluator and policies, failing cycles included: a candidate promoted in a run of cycles had a canary that earned it, or such a run, evidence and risk in the cycle that promoted it, under its policy |
| LoopRuns.PromotionsAreEarned | crates/eli/src/evolution/auto.rs:447-467 | for any evaluator and policies, failing cycles included: a canary is promoted only after its fingerprint turned up in as many cycles as the policy of the cycle that staged it asks for, from that cycle to the one that promoted it, both included, and was staged on a passing run of at least that policy's minimum score, its risk within its limits |
| LoopRuns.LoopCounts | crates/eli/src/evolution/auto.rs:146-172 | in such runs the observations of a canary are exactly the cycles that saw its fingerprint, from the one that staged it, before which it was not there, to the one that promoted it or let it expire |
| LoopRuns.RejectedByHandAborts | crates/eli/src/evolution/auto.rs:447-454 | rejecting the candidate of a ready canary by hand makes promoting what is ready fail |
| LoopRuns.ChangedMindAborts | crates/eli/src/evolution/auto.rs:276-332 | in any store, an evaluator that says no in the cycle of a canary's last observation makes that cycle fail |
| LoopRuns.CycleKeepsFiles | crates/eli/src/evolution/auto.rs:276-332 | a cycle keeps target files, bundles and statuses as runs of operations do, whatever the evaluator says and even when it fails, in any workspace |
| LoopRuns.LoopKeepsFiles | crates/eli/src/evolution/auto.rs:276-332 | so does a whole run of cycles, for any evaluator, any policies, and with failing cycles |

## Left out

- Failing file operations, partial writes, and truncation by other processes: reading and writing succeed, or fail only where bytes are not UTF-8.
- The locks and channels themselves: what happens under one lock is one step.
- JSON, hashing, clocks and identifiers: assumed as listed above.
- Machine words of counters that cannot be reached in practice (generations, ids, observations, consecutive failures): unbounded here.
- ShellQuote.QuoteIsRead: strings with NUL, which no argument can hold, and the shell's rule that a first word with `=` is an assignment.
- Fences.ScannerCountsRuns: the scanner walks over bytes in the program and over characters here; fences and the ends of tags are ASCII, so it meets the same ones.
- TapeRuns.CachesAgree: files with carriage returns at line ends or without a last newline, and resets, which `TapeResets` covers; of an instance that misses another's reset `TapeResets.ResetRunsAgree` and `TapeFile.ReadIsRightExactly` say when its reads are right all the same.
- TapeFile.TapeFile.Append: measuring, reading and writing the file are one step; `TapeFile.RacingReadDuplicates` says what goes wrong between the first two.
- ForkTape.OverlayAgreesExactly: queries with limits, dates, text or two anchors, which the overlay applies to the parent's entries only.
- ForkRuns.ForkTapeStore.BeginFork: a fork inside a fork.
- FeishuChannel.FeishuState.FlushBatch: the dispatch of the batch, typing reactions and chat history.
- PromptBudget.Build: what the sections say, and where they come from.
- StoreFiles.RunTracks: which files are left after a forced promotion onto the covered target of a candidate already promoted, from where on `StoreFiles.StepTracksExactly` says that tracking fails; and the files of policies where some policy file does not parse at the start, about which `Orphans.RunStrands` says what becomes of them without force.
- CycleExact.CycleFailsExactly: automatic canaries of other kinds than rules, which no cycle stages.
- StoreRuns.StepMoves: staging a draft that was never stored, and candidates written by hand without a fingerprint.
- Store.EvolutionStore.Capture: the regular expression that names must match.
- AutoCycle.RunAutoCycle: which notes a cycle itself adds to the journal beside those of its operations, about which `Journals` speaks.
- Store.EvolutionStore.Evaluate: what the evaluator checks; its verdict is an input.
- Global rule, knowledge and policy files outside the workspace: bundles do not include them.
- How evidence on a tape becomes the texts of a draft: an input of a cycle.
- Telegram, lark-cli, web fetch, the shell manager, the command line and its rendering: input and output.
- Greeting tables, model tables, MIME types, settings, hooks and skill discovery: look-ups.
