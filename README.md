# VideoLingo subtitle core, modelled in Dafny

VideoLingo turns a transcribed video into translated subtitles. This project
models the sequence-and-bookkeeping core of that pipeline and proves what it
promises:

- **Subtitle timeline** (`core/_6_gen_sub.py`). The transcript's words are
  indexed by character offset. Each subtitle sentence is located in that text,
  first by an exact search in a bounded window, then by a fuzzy common block
  over a ratio threshold. Sentences that are not found get a lookahead or a
  length-based estimate instead. The result is one well-formed interval per
  sentence, with no overlaps. Gaps under one second are closed in place, and
  every interval is rendered as `HH:MM:SS,mmm --> HH:MM:SS,mmm`.
- **Chunked translation** (`core/_4_2_translate.py`). Sentences are packed into
  chunks bounded in characters and in sentence count. Each chunk is given
  context lines from its neighbours. Results that come back in any order are
  sorted by chunk index, concatenated, and the source and translation lists
  are truncated to a common length.
- **Translation of one block** (`core/translate_lines.py`). A response is
  validated for its required keys and sub-keys and checked for hallucinated
  duplicate lines. A request is made at most three times, that is retried at
  most twice. The source
  line is injected into each `origin` field, and the chosen field is joined
  into the block's output.
- **Split by meaning** (`core/_3_2_split_meaning.py`). A sentence with more
  tokens than the limit is sent to the LLM to be split into
  `ceil(tokens / limit)` parts. A failed split falls back to the original
  sentence. The parts are flattened in the original order, and the whole
  pass runs three times.
- **LLM access** (`core/utils/ask_gpt.py`). The client is a lazily created
  singleton with a normalised base URL. Each log title has an append-only
  request log, searched newest first as a cache. `ask_gpt` checks the API key,
  short-circuits on a cache hit, then parses and validates the reply,
  routing failures to the `error` log.

The LLM, the tokenizer, the JSON parser and `difflib.SequenceMatcher` are
parameters (oracles). Thread pools are modelled as sequential processing of
index-tagged jobs; for the chunk translation, the completion order is an
arbitrary permutation given as a parameter.

Files: `wrappers.dfy` (Option), `strings.dfy` (Python string operations:
`strip`, `split`, `join`, `replace`, `isdigit`, `int`/`str`), `json.dfy` (JSON
values with ordered objects and Python's `in`, `len` and truthiness),
`matcher.dfy`, `resolver.dfy`, `timeline.dfy`, `chunking.dfy`, `gpt.dfy`,
`translate_lines.dfy`, `split_meaning.dfy`.

## Model

| member | source | states |
|---|---|---|
| Matcher.CollapseSpaces | core/_6_gen_sub.py:40 | every output char is a non-space char of the input or a single blank |
| Matcher.KeepWordsAndSpaces | core/_6_gen_sub.py:41 | only word chars and whitespace of the input survive |
| Matcher.KeptChars | core/_6_gen_sub.py:40-41 | after collapsing whitespace and dropping punctuation only word chars and single blanks remain |
| Matcher.RemovePunctuationShape | core/_6_gen_sub.py:38-42 | the result holds only word chars and blanks and has no whitespace at either end |
| Matcher.WordCharsAppend | core/_6_gen_sub.py:38-42 | keeping word chars distributes over concatenation |
| Matcher.WordCharsStripLeft | core/_6_gen_sub.py:42 | stripping leading whitespace keeps the word chars |
| Matcher.WordCharsStripRight | core/_6_gen_sub.py:42 | stripping trailing whitespace keeps the word chars |
| Matcher.WordCharsCollapse | core/_6_gen_sub.py:40 | collapsing whitespace keeps the word chars |
| Matcher.WordCharsKeep | core/_6_gen_sub.py:41 | dropping punctuation keeps the word chars |
| Matcher.RemoveBlanksKeepsWords | core/_6_gen_sub.py:92 | removing the blanks of a cleaned text leaves exactly its word chars |
| Matcher.CleanSentenceIsWordChars | core/_6_gen_sub.py:92 | a cleaned sentence is the word chars of its lower-case form |
| Matcher.Window | core/_6_gen_sub.py:46-47 | the search window is at most `search_window` long |
| Matcher.AboveThresholdIsRatio | core/_6_gen_sub.py:63 | the integer acceptance test is exactly `size / len(query) > 0.6` |
| Matcher.FindBestMatch | core/_6_gen_sub.py:44-67 | any span returned lies inside `[start_pos, min(len(text), start_pos + search_window)]` |
| Matcher.FindBestMatchSpec | core/_6_gen_sub.py:44-67 | empty query or window gives none; a literal occurrence gives the first one, with `text[s:e] == query`; otherwise a fuzzy answer is a piece of the query over the threshold; none only when neither exists |
| Matcher.WindowOccurrence | core/_6_gen_sub.py:53-55 | the first occurrence in the window maps to the first occurrence in the text from `start_pos` |
| Matcher.FuzzyBlockInText | core/_6_gen_sub.py:58-65 | a common block of query and window is a text span inside the window that occurs in the query |
| Resolver.CleanedWords | core/_6_gen_sub.py:76-79 | one cleaned key per word, each the word's cleaned text |
| Resolver.WordAt | core/_6_gen_sub.py:76-81 | an offset of the joined keys maps to a word index in range |
| Resolver.OffsetMonotone | core/_6_gen_sub.py:76-81 | word start offsets never decrease |
| Resolver.WordAtCovers | core/_6_gen_sub.py:76-81 | the word owning an offset covers that offset and is non-empty, so words that clean to "" own no offsets |
| Resolver.WordAtExactly | core/_6_gen_sub.py:76-81 | word k owns offset p exactly when p lies in k's range |
| Resolver.WordAtMonotone | core/_6_gen_sub.py:76-81 | the owning word index is non-decreasing in the offset |
| Resolver.WordAtExtend | core/_6_gen_sub.py:76-81 | appending a word keeps old offsets' owners and gives the new offsets to the new word |
| Resolver.IndexKey | core/_6_gen_sub.py:78-81 | one inner-loop pass extends the joined text and the offset map by one word |
| Resolver.BuildIndex | core/_6_gen_sub.py:73-81 | the map covers exactly the offsets of the joined text and maps each to its owning word |
| Resolver.Prepare | core/_6_gen_sub.py:86-92 | one prepared sentence per input, keeping the raw text and its cleaned form |
| Resolver.Matched | core/_6_gen_sub.py:102-127 | an accepted match starts no earlier than the last end, ends at least at its start (raised to start + 0.1), and moves the cursor to the match end |
| Resolver.Lookahead | core/_6_gen_sub.py:133-152 | a lookahead hit needs a non-empty next sentence and lies at or after the cursor |
| Resolver.Absorbed | core/_6_gen_sub.py:148-168 | a lookahead interval starts at the last end; its end is the next match's start, or last end + 1.0 if not later, or last end + 2.0 without one; the cursor stays |
| Resolver.EstimatedDuration | core/_6_gen_sub.py:173-174 | the estimate is `min(0.1 * len(raw) + 0.5, 5.0)`, between 0.5 and 5 |
| Resolver.Fallback | core/_6_gen_sub.py:129-183 | a failed match gets an interval from the last end to a strictly later end, which becomes the new last end; `current_pos` stays; with no lookahead hit the end is last end plus the estimate |
| Resolver.TryMatch | core/_6_gen_sub.py:100-127 | an empty cleaned sentence never matches; a match starts after the last end and never moves the cursor back |
| Resolver.Step | core/_6_gen_sub.py:93-183 | each sentence gets an interval starting at or after the last end; the cursor never decreases; an empty sentence gets `(last, last + 0.1)` |
| Resolver.Walk | core/_6_gen_sub.py:93-185 | walking n sentences yields n intervals |
| Resolver.ResolveStep | core/_6_gen_sub.py:93-185 | resolving k + 1 sentences is resolving k and appending the step for sentence k |
| Resolver.WalkShape | core/_6_gen_sub.py:84-185 | a walk whose every step starts at or after the last end yields a well-formed, non-overlapping timeline starting at or after 0 |
| Resolver.WalkCursorMonotone | core/_6_gen_sub.py:125-183 | a walk whose steps never move the cursor back has a cursor that is non-decreasing in the number of steps |
| Resolver.ResolveShape | core/_6_gen_sub.py:84-185 | exactly one interval per sentence, each with start ≤ end, each starting at or after the previous end, the last end tracked by the cursor |
| Resolver.CursorMonotone | core/_6_gen_sub.py:125-183 | `current_pos` never decreases over the walk |
| Resolver.ChainedStartsSorted | core/_6_gen_sub.py:84-185 | in a chained timeline starts are non-decreasing |
| Resolver.MatchTier | core/_6_gen_sub.py:100-127 | the map-based match step computes the match of the specification |
| Resolver.LookaheadSpan | core/_6_gen_sub.py:133-142 | the look at the next sentence computes the specified lookahead |
| Resolver.AbsorbTier | core/_6_gen_sub.py:144-168 | the map-based lookahead interval computes the specified absorbed interval |
| Resolver.EstimateTier | core/_6_gen_sub.py:170-183 | the last resort spans from the last end for the estimated duration, leaving `current_pos` unchanged |
| Resolver.FallbackTier | core/_6_gen_sub.py:129-183 | the lookahead-or-estimate step computes `Fallback`: the lookahead interval on a hit, the estimate otherwise |
| Resolver.NextStamp | core/_6_gen_sub.py:93-183 | one loop iteration computes the specification's step |
| Resolver.GetSentenceTimestamps | core/_6_gen_sub.py:69-185 | the loop returns the specified walk: one interval per sentence, well-formed and non-overlapping |
| Timeline.Linear | core/_6_gen_sub.py:202-206 | the fallback has one slot per sentence |
| Timeline.LinearShape | core/_6_gen_sub.py:202-206 | the fallback slots are well-formed, chained and contiguous |
| Timeline.LinearFallback | core/_6_gen_sub.py:202-206 | the loop produces the slots `(2k, 2k + 2)` |
| Timeline.CloseGaps | core/_6_gen_sub.py:212-218 | gap closing keeps the number of entries |
| Timeline.CloseGapsChanges | core/_6_gen_sub.py:212-218 | starts never change; an end changes only under a gap in (0, 1), to the next start, and never shrinks |
| Timeline.CloseGapsLeavesNoSmallGap | core/_6_gen_sub.py:212-218 | no gap in (0, 1) is left |
| Timeline.CloseGapsIdempotent | core/_6_gen_sub.py:212-218 | running gap removal twice changes nothing more |
| Timeline.CloseGapsKeepsShape | core/_6_gen_sub.py:212-218 | a well-formed non-overlapping timeline stays so |
| Timeline.RemoveGaps | core/_6_gen_sub.py:212-218 | the in-place loop leaves the array equal to the gap-closed timeline |
| Timeline.Zeros | core/_6_gen_sub.py:32 | a run of n zero digits |
| Timeline.ZeroFill | core/_6_gen_sub.py:32 | zero padding reaches the field width and never truncates |
| Timeline.Pad | core/_6_gen_sub.py:32 | a padded non-negative field is at least as wide as asked |
| Timeline.FloorsOfMillis | core/_6_gen_sub.py:27-31 | hours, minutes and seconds floored from the float agree with the whole milliseconds |
| Timeline.MinutesField | core/_6_gen_sub.py:29 | the minutes field computed from the float equals the whole milliseconds over 60000, modulo 60 |
| Timeline.SecondsField | core/_6_gen_sub.py:30-32 | the seconds field computed from the float equals the whole milliseconds over 1000, modulo 60 |
| Timeline.MillisecondsField | core/_6_gen_sub.py:30-31 | the milliseconds field computed from the float equals the whole milliseconds modulo 1000 |
| Timeline.MillisFields | core/_6_gen_sub.py:27-31 | the four fields decompose the milliseconds exactly |
| Timeline.SrtTimeIsMillis | core/_6_gen_sub.py:27-32 | formatting seconds equals formatting their whole milliseconds |
| Timeline.ParseSrtTime | core/_6_gen_sub.py:32 | a parsed stamp has the `HH:MM:SS,mmm` layout |
| Timeline.ParseLayout | core/_6_gen_sub.py:32 | four digit fields of widths 2, 2, 2 and 3 joined as `HH:MM:SS,mmm` make 12 chars that parse to their weighted sum of milliseconds |
| Timeline.LeadingZeros | core/_6_gen_sub.py:32 | zero padding does not change a field's value |
| Timeline.PadField | core/_6_gen_sub.py:32 | a padded field in range has exactly its width and reads back its value |
| Timeline.FormatMillisRoundTrip | core/_6_gen_sub.py:27-32 | below 100 hours the stamp is 12 chars and parses back to the milliseconds |
| Timeline.SrtRangeLayout | core/_6_gen_sub.py:25-36 | the range is 29 chars, ` --> ` in the middle, each side parsing back to its floored milliseconds |
| Timeline.Texts | core/_6_gen_sub.py:86 | one text per table cell |
| Timeline.Words | core/_6_gen_sub.py:76 | one word per word row |
| Timeline.Stamps | core/_6_gen_sub.py:197-206 | one well-formed non-overlapping interval per sentence; a non-text cell raises and gives the linear fallback |
| Timeline.AlignTimestamps | core/_6_gen_sub.py:187-221 | durations are end minus start and non-negative; each SRT range renders the gap-closed interval |
| Timeline.PolishTranslationShape | core/_6_gen_sub.py:224-225 | the polished text holds no full-width comma or full stop and no surrounding whitespace |
| Chunking.Sentences | core/_4_2_translate.py:31 | at least one sentence, none holding a newline |
| Strings.StrippedLines | core/_4_2_translate.py:56-65 | a stripped block split at newlines gives at least one line, none holding a newline |
| Chunking.ChunkText | core/_4_2_translate.py:40-43 | a chunk's text is empty only for no sentences, and holds at least one char per sentence |
| Chunking.ChunkStrings | core/_4_2_translate.py:39-47 | one chunk string per group |
| Chunking.CloseChunk | core/_4_2_translate.py:37-39 | closing a group appends its stripped text to the chunk strings, and nothing for an empty group |
| Chunking.GroupsStep | core/_4_2_translate.py:36-44 | the grouping of the remaining sentences either closes the group and starts a new one or extends it, by the size and count test |
| Chunking.AdvanceGroups | core/_4_2_translate.py:36-44 | one sentence consumed keeps the emitted groups plus the rest of the grouping equal to the whole grouping |
| Chunking.AddSentence | core/_4_2_translate.py:36-44 | one loop iteration keeps `chunk`, `sentence_count` and `chunks` equal to the texts of the specified groups, closing the group exactly when the test demands |
| Chunking.SplitChunksByChars | core/_4_2_translate.py:28-48 | the loop returns the specified greedy chunking |
| Chunking.GroupsFlatten | core/_4_2_translate.py:33-48 | every sentence lands in exactly one chunk, in order |
| Chunking.GroupsNonEmpty | core/_4_2_translate.py:38-46 | no chunk is empty |
| Chunking.GroupsBounded | core/_4_2_translate.py:37-44 | no chunk holds more than `max_i` sentences |
| Chunking.GroupsFit | core/_4_2_translate.py:37-44 | a chunk exceeds `chunk_size` before stripping only if it holds a single sentence |
| Chunking.GroupsHead | core/_4_2_translate.py:40-43 | the first chunk starts with the pending sentence |
| Chunking.GroupsGreedy | core/_4_2_translate.py:37 | each new chunk starts only where the size or count test demanded it |
| Chunking.ChunkTextJoin | core/_4_2_translate.py:40-43 | a chunk's text is its sentences joined by newlines plus a final newline |
| Chunking.ChunkStrip | core/_4_2_translate.py:39-47 | stripping a chunk of clean lines gives its lines joined by newlines |
| Chunking.LinesOfJoin | core/_4_2_translate.py:56-65 | splitting clean lines joined by newlines gives them back |
| Chunking.ChunkLines | core/_4_2_translate.py:39-65 | a stripped chunk of clean lines splits back into its sentences |
| Chunking.GroupsOfLines | core/_4_2_translate.py:33-48 | chunks of clean lines hold clean lines |
| Chunking.ChunksRoundTrip | core/_4_2_translate.py:33-65 | no chunk is empty and splitting every chunk and concatenating gives back the input sentences |
| Chunking.GetContext | core/_4_2_translate.py:53-59 | out of range gives []; a negative offset gives the last lines, otherwise the first lines |
| Chunking.GetContextLength | core/_4_2_translate.py:57-58 | with `lines_count >= 1` the context has at most `lines_count` lines |
| Chunking.GetContextZero | core/_4_2_translate.py:57 | a zero count with a negative offset returns the whole chunk (Python's `[-0:]`) |
| Chunking.ProcessChunk | core/_4_2_translate.py:64-73 | the result carries the chunk index and at least one source line |
| Chunking.ContextBefore | core/_4_2_translate.py:53-67 | the first chunk gets no preceding context; any other gets the last 3 lines of the previous chunk, or all of a shorter one |
| Chunking.ContextAfter | core/_4_2_translate.py:53-68 | the last chunk gets no following context; any other gets the first 2 lines of the next chunk, or all of a shorter one |
| Chunking.InsertByIndex | core/_4_2_translate.py:98 | insertion keeps the order by index and the multiset of results |
| Chunking.SortByIndex | core/_4_2_translate.py:98 | the sort returns a permutation ordered by chunk index |
| Chunking.Completed | core/_4_2_translate.py:91-94 | one result per completed future |
| Chunking.CollectResults | core/_4_2_translate.py:93-94 | the collection loop appends the results in completion order |
| Chunking.InChunkOrder | core/_4_2_translate.py:91 | one result per chunk |
| Chunking.StrictlyIncreasingIsIdentity | core/_4_2_translate.py:98 | strictly increasing indices below n are exactly 0..n-1 |
| Chunking.CompletedFacts | core/_4_2_translate.py:91-94 | each chunk's result is collected once and is that chunk's result |
| Chunking.SortedResults | core/_4_2_translate.py:93-98 | the sorted results are one per chunk, ordered by index, each collected once and each some chunk's result |
| Chunking.SortedResultsStrict | core/_4_2_translate.py:98 | sorted results collected once have strictly increasing indices |
| Chunking.StrictIndices | core/_4_2_translate.py:98 | n results with strictly increasing chunk indices below n carry indices 0..n-1 in order |
| Chunking.SortedIsChunkOrder | core/_4_2_translate.py:98 | results carrying indices 0..n-1 in order are the results in chunk order |
| Chunking.SortRestoresChunkOrder | core/_4_2_translate.py:90-98 | whatever the completion order, sorting gives the results in chunk order |
| Chunking.Sources | core/_4_2_translate.py:102-103 | one source list per result |
| Chunking.Translations | core/_4_2_translate.py:102-104 | one translation list per result |
| Chunking.Concatenate | core/_4_2_translate.py:100-104 | the extend loop concatenates all sources and all translations |
| Chunking.Truncate | core/_4_2_translate.py:115-120 | both lists end with equal length, the shorter one's, as prefixes; equal lengths are kept as is |
| Chunking.TranslateAll | core/_4_2_translate.py:79-120 | chunks of 600 chars and 10 sentences, results in chunk order, concatenated and truncated |
| Chunking.TranslateAllSources | core/_4_2_translate.py:83-104 | with clean lines, the concatenated sources are the input sentences |
| Chunking.TranslateAllNoTruncation | core/_4_2_translate.py:115-120 | when every chunk's translation has its source's length nothing is truncated |
| Gpt.TrimLeft | core/utils/ask_gpt.py:29 | no leading `/` remains |
| Gpt.TrimRight | core/utils/ask_gpt.py:29 | no trailing `/` remains |
| Gpt.Trim | core/utils/ask_gpt.py:29 | no `/` at either end |
| Gpt.NormalizeBaseUrl | core/utils/ask_gpt.py:25-29 | the normalised URL mentions `v1` or `volces` |
| Gpt.HostNamesVolces | core/utils/ask_gpt.py:26-28 | the Volcengine host mentions `volces`, so it is kept |
| Gpt.NormalizeBaseUrlKeeps | core/utils/ask_gpt.py:26-28 | a URL mentioning `v1` or `volces` is unchanged |
| Gpt.NormalizeBaseUrlAppends | core/utils/ask_gpt.py:28-29 | any other URL becomes `strip('/') + '/v1'` |
| Gpt.NormalizeBaseUrlIdempotent | core/utils/ask_gpt.py:25-29 | normalising twice is normalising once |
| Gpt.LookupSpec | core/utils/ask_gpt.py:51-53 | a lookup answers the newest record matching prompt and response type, and nothing only when none matches |
| Gpt.LookupNone | core/utils/ask_gpt.py:51-57 | the lookup finds nothing exactly when no record matches the prompt and response type |
| Gpt.LookupSome | core/utils/ask_gpt.py:51-53 | a found value is the response of a matching record after which no record matches |
| Gpt.Cached | core/utils/ask_gpt.py:42-57 | a missing or corrupt log gives no cached value |
| Gpt.Append | core/utils/ask_gpt.py:59-83 | the written title holds a readable log; other titles are untouched |
| Gpt.AppendKeeps | core/utils/ask_gpt.py:63-73 | saving appends exactly one record after the earlier ones; a corrupt log restarts empty |
| Gpt.AppendThenLookup | core/utils/ask_gpt.py:42-83 | a saved record is found by the next lookup |
| Gpt.AppendOtherLookup | core/utils/ask_gpt.py:42-83 | saving does not change the answer for another title, prompt or response type |
| Gpt.Exchange | core/utils/ask_gpt.py:106-142 | success means the reply parsed (JSON mode) and validated, and is logged under the title; a failure is a parse or validation error logged under `error` |
| Gpt.Service.constructor | core/utils/ask_gpt.py:16-18 | no client yet, no calls, the given logs |
| Gpt.Service.GetClient | core/utils/ask_gpt.py:20-36 | the client is created once, from the normalised URL, and then reused |
| Gpt.Service.LoadCache | core/utils/ask_gpt.py:42-57 | returns the cached value of the logs |
| Gpt.Service.SaveCache | core/utils/ask_gpt.py:59-83 | the logs become the appended logs; nothing else changes |
| Gpt.Service.Respond | core/utils/ask_gpt.py:118-142 | parsing, validating and logging a reply gives the outcome and the log write of the exchange; the client, calls and requests are unchanged |
| Gpt.Service.Ask | core/utils/ask_gpt.py:89-142 | no key raises with no cache or client access; a truthy cached value returns with no call; otherwise exactly one LLM call, whose outcome and log write are the exchange's |
| TranslateLines.IntToString | core/translate_lines.py:31 | `str(i)` is never empty |
| TranslateLines.HasAllSubKeysCons | core/translate_lines.py:14-16 | the sub-key condition splits over the first key and the rest |
| TranslateLines.SubKeysOfMembersSpec | core/translate_lines.py:14-17 | the sub-key loop passes exactly when every key, extra keys included, has every sub-key |
| TranslateLines.ItemsWithStringFail | core/translate_lines.py:15 | a string entry fails the sub-key test |
| TranslateLines.NonDictRejected | core/translate_lines.py:12-13 | a non-dict response never passes when a required key is non-empty |
| TranslateLines.ValidTranslateResultSpec | core/translate_lines.py:10-17 | a dict passes exactly when every required key is present and every key has every sub-key |
| TranslateLines.NumberKeys | core/translate_lines.py:31 | keys `"1".."n"`, n of them |
| TranslateLines.NumberKeysDistinct | core/translate_lines.py:31 | those keys are distinct |
| TranslateLines.PairAt | core/translate_lines.py:38-49 | a pair is fine exactly when both texts exist and are not a suspicious duplicate; duplicate exactly when suspicious; missing exactly when a text is absent |
| TranslateLines.ScanPasses | core/translate_lines.py:36-50 | the scan passes exactly when every pair from i on is fine |
| TranslateLines.ScanRejects | core/translate_lines.py:36-49 | with no missing text, a rejection names the first duplicate pair |
| TranslateLines.HallucinationFromPasses | core/translate_lines.py:36-50 | the check passes exactly when no adjacent pair from i on is a long duplicate of different sources |
| TranslateLines.HallucinationFromRejects | core/translate_lines.py:36-49 | a rejection names the first offending pair |
| TranslateLines.ValidFaithSpec | core/translate_lines.py:29-50 | `valid_faith` passes exactly when the `direct` key check passes and no adjacent pair is hallucinated |
| TranslateLines.ValidExpress | core/translate_lines.py:52-55 | `valid_express` passes exactly when the `free` key check passes |
| TranslateLines.Attempts | core/translate_lines.py:57-61 | n attempts are n requests |
| TranslateLines.AttemptsDiffer | core/translate_lines.py:59-61 | every attempt sends a different prompt (r trailing blanks) |
| TranslateLines.AttemptRequest | core/translate_lines.py:57-61 | attempt k sends the prompt with k trailing blanks under the step's log title, as the k-th of the attempts' requests |
| TranslateLines.AttemptsSnoc | core/translate_lines.py:57-61 | one more attempt appends its own request after the earlier ones |
| TranslateLines.Attempt | core/translate_lines.py:58-61 | one `ask_gpt` call: its request is recorded; with a key and a cache hit it returns the logged response and writes nothing; a reply not from the cache passed the step's validator; the logs grow by at most one record |
| TranslateLines.AttemptsAnsweredSnoc | core/translate_lines.py:57-64 | one more answered attempt extends the run of answered attempts |
| TranslateLines.RetriedDone | core/translate_lines.py:57-64 | a successful result is the reply of the first attempt whose length is `length` |
| TranslateLines.Classify | core/translate_lines.py:63-69 | a raised error, a reply without a length or one of the right length settles the loop; a wrong length retries, except on the third attempt, which gives up |
| TranslateLines.Finish | core/translate_lines.py:57-69 | earlier wrong lengths and a settling last reply make a complete run of the loop |
| TranslateLines.StepRun | core/translate_lines.py:57-69 | after one more answered attempt the run is either settled, as `Classify` says, or continues after one more wrong length |
| TranslateLines.RetryTranslation | core/translate_lines.py:57-69 | one to three attempts, attempt k with k blanks; every reply before the last was a JSON value of the wrong length; the result is the last reply's value when it has `length` entries, its error when it raised, a shape failure when it has no length, and exhaustion only after three wrong lengths; each reply not from the cache passed the step's validator |
| TranslateLines.InjectFieldsDirect | core/translate_lines.py:77 | `direct` becomes its text with newlines replaced by blanks |
| TranslateLines.InjectFieldsOrigin | core/translate_lines.py:78-83 | a digit key k gets `origin = source_lines[k-1]` when 1 ≤ k ≤ n and "" otherwise |
| TranslateLines.InjectFieldsOriginKept | core/translate_lines.py:78 | a non-digit key's `origin` is untouched |
| TranslateLines.InjectOrigin | core/translate_lines.py:76-83 | the loop injects every entry, and fails only when an entry has no string `direct` |
| TranslateLines.FieldLines | core/translate_lines.py:87-105 | one newline-free output line per entry |
| TranslateLines.FieldLinesJoin | core/translate_lines.py:87-106 | the joined output splits back into one line per entry |
| TranslateLines.InjectedDirectLines | core/translate_lines.py:77-87 | injection does not change the `direct` output lines |
| TranslateLines.ReplaceTwice | core/translate_lines.py:77-105 | replacing newlines twice is replacing once |
| TranslateLines.FaithBlock | core/translate_lines.py:71-83 | the faithful retry loop; on success its entries, each with its origin injected, give one `direct` output line per source line |
| TranslateLines.ExpressBlock | core/translate_lines.py:89-106 | the expressive retry loop; a failure of the loop is the result; on success the output is the loop's `free` texts, stripped, in key order, joined by newlines, one line per source line |
| TranslateLines.TranslateBlock | core/translate_lines.py:19-106 | the faithful loop runs first and its failure is the result; without reflection the output is the injected entries' stripped `direct` texts joined in key order, with reflection the expressive loop runs on the injected entries and the output is its `free` texts; the output has one line per source line and the input lines are returned |
| SplitMeaning.ValidSplit | core/_3_2_split_meaning.py:24-33 | passes exactly for a dict whose `split` is a list; missing or non-list `split` errors with its message; a list shorter than 2 passes |
| SplitMeaning.StringItems | core/_3_2_split_meaning.py:47 | the items join only when all are strings |
| SplitMeaning.SplitTextOfValid | core/_3_2_split_meaning.py:44-47 | a validated all-string list joins to its items separated by newlines |
| SplitMeaning.SplitSentence | core/_3_2_split_meaning.py:17-68 | one request with `retry` trailing blanks under `split_by_meaning`; the result is the joined `split` list; a fresh reply was validated |
| SplitMeaning.CeilDivIsCeiling | core/_3_2_split_meaning.py:82 | `num_parts` is the ceiling of tokens over the limit, and at least 2 when a split is asked |
| SplitMeaning.JobsOfSnoc | core/_3_2_split_meaning.py:76-86 | the job list grows by one job exactly for a long last sentence |
| SplitMeaning.JobsOfSound | core/_3_2_split_meaning.py:80-84 | each job is a sentence over the limit, with its index |
| SplitMeaning.JobsOfParts | core/_3_2_split_meaning.py:81-82 | each job asks for `ceil(tokens / max_length)` parts |
| SplitMeaning.JobsOfIncreasing | core/_3_2_split_meaning.py:76-84 | jobs are submitted in increasing index order |
| SplitMeaning.JobsOfComplete | core/_3_2_split_meaning.py:76-84 | every long sentence gets a job |
| SplitMeaning.JobsOfAllShort | core/_3_2_split_meaning.py:81-86 | when all sentences are short no job is submitted |
| SplitMeaning.Fallback | core/_3_2_split_meaning.py:91-98 | every sentence contributes at least one line |
| SplitMeaning.FallbackOfLines | core/_3_2_split_meaning.py:91-93 | a split of clean lines comes back unchanged |
| SplitMeaning.FallbackOfStripped | core/_3_2_split_meaning.py:92-93 | a stripped reply whose lines are already stripped gives back those lines |
| SplitMeaning.LinesSplitBack | core/_3_2_split_meaning.py:92 | clean lines joined by newlines split back into them |
| SplitMeaning.StripEachLines | core/_3_2_split_meaning.py:93 | stripping clean lines changes nothing |
| SplitMeaning.FallbackNoNewline | core/_3_2_split_meaning.py:91-98 | the lines of a newline-free sentence hold no newline |
| SplitMeaning.FlattenSingletons | core/_3_2_split_meaning.py:86-101 | flattening singletons gives back the sentences |
| SplitMeaning.SplitPartsLength | core/_3_2_split_meaning.py:101 | the flattened output is at least as long as the input |
| SplitMeaning.AllShortUnchanged | core/_3_2_split_meaning.py:85-101 | with no long sentence the output is the input |
| SplitMeaning.AllFailedUnchanged | core/_3_2_split_meaning.py:94-101 | when every split fails the output is the input |
| SplitMeaning.SplitPartsNoNewline | core/_3_2_split_meaning.py:92-101 | output lines hold no newline |
| SplitMeaning.FlattenNoNewline | core/_3_2_split_meaning.py:101 | flattening newline-free lists gives newline-free lines |
| SplitMeaning.CollectedAll | core/_3_2_split_meaning.py:88-98 | after the second loop each slot holds its sentence's split or fallback |
| SplitMeaning.SubmitJobs | core/_3_2_split_meaning.py:76-86 | the first loop fails on a zero limit, else submits the specified jobs and fills short slots |
| SplitMeaning.CollectOne | core/_3_2_split_meaning.py:89-98 | one future's result fills its slot with the split lines or the sentence |
| SplitMeaning.CollectedAdvance | core/_3_2_split_meaning.py:88-98 | filling the slot of the next job, whose index is above all earlier ones, extends the collected prefix by that job |
| SplitMeaning.CollectedStep | core/_3_2_split_meaning.py:88-98 | each submitted job's slot is in range, and filling it extends the collected prefix |
| SplitMeaning.CollectJobs | core/_3_2_split_meaning.py:88-98 | the loop fills the slots in index order and asks one request per job |
| SplitMeaning.ParallelSplitSentences | core/_3_2_split_meaning.py:70-101 | fails only on a zero limit with a sentence of at least one token (ZeroDivisionError), asking nothing; otherwise the flatten of the per-sentence parts, one request per long sentence |
| SplitMeaning.ReadLines | core/_3_2_split_meaning.py:107-108 | no line holds a newline |
| SplitMeaning.ReadLinesRoundTrip | core/_3_2_split_meaning.py:107-108 | the lines joined by newlines give back the file, up to a final newline |
| SplitMeaning.InputSentences | core/_3_2_split_meaning.py:107-108 | one stripped, newline-free sentence per line |
| SplitMeaning.PassChainSnoc | core/_3_2_split_meaning.py:112-119 | one more pass over the last list extends the chain of passes |
| SplitMeaning.PassRequestsSnoc | core/_3_2_split_meaning.py:112-119 | one more pass adds its own requests after those of the earlier passes |
| SplitMeaning.SplitSentencesByMeaning | core/_3_2_split_meaning.py:103-124 | the first pass starts from the stripped input lines and each pass is the flatten of the per-sentence parts of the one before; the requests are those of the passes in order; after three passes the written text is the last list joined by newlines, at least as many lines as read, each newline-free, splitting back into them; all-short input is written back unchanged with no request |
| Strings.SplitJoin | core/_4_2_translate.py:31-56 | splitting a join of newline-free pieces gives the pieces back |
| Strings.JoinSplit | core/_3_2_split_meaning.py:92-123 | joining a split gives back the text |
| Strings.NatToStringRoundTrip | core/translate_lines.py:31-79 | `int(str(n)) == n` |
| Json.GetPut | core/translate_lines.py:77-83 | after setting a key, reading it gives the new value and other keys keep theirs |
| Json.GetPutSame | core/translate_lines.py:77-83 | after setting a key, reading it gives the new value |
| Json.GetPutOther | core/translate_lines.py:77-83 | setting a key leaves every other key's value unchanged |

## Left out

- Character classes: `\w`, `\s`, `str.isspace` and `str.isdigit` are modelled on ASCII plus Python's whitespace set; other Unicode letters and digits are not classified as Python does.
- `str.lower` is ASCII only.
- Timestamps are `real`; the float rounding of `seconds * 1000` and of the duration sums is not modelled.
- Matcher.FindBestMatch: `SequenceMatcher.find_longest_match` is a parameter returning any common block of query and window. The model does not claim it is the longest one (difflib's autojunk heuristic can miss it).
- The prompt builders (`get_split_prompt`, `get_prompt_faithfulness`, `get_prompt_expressiveness`, `generate_shared_prompt`) are parameters; core/prompts.py is not part of this model.
- `translate_batch_lines`, called by `process_chunk`, is not defined in the modelled files; it is a parameter returning the translated lines.
- The `except_handler` retry decorator on `ask_gpt` is not part of this model: a raised error reaches the caller after the first attempt.
- The `check_file_exists` decorators, which skip a stage whose output already exists, are not modelled.
- The tokenizer (spaCy) is a token-count parameter; `init_nlp` is left out.
- `json_repair.loads` is a parser parameter that may fail.
- The OpenAI client: the network call is an oracle keyed by prompt, JSON mode and call number; timeouts and the `response_format` transport detail are not modelled.
- Thread pools and `LOCK`: futures are processed sequentially; in the split pass in submission order (which the source uses), in the chunk pass in an arbitrary completion order given as a permutation.
- File I/O: the JSON log files become an in-memory map from title to log; the temp-file-then-move write, its cleanup and OSError handling, the Excel files and SRT file writing (`generate_subtitle_string`) are left out. A corrupt log file is a distinct log state.
- Python's universal-newline handling of a lone `\r` in `readlines` is not modelled; only `\n` ends a line.
- Console output: tables, progress bars, warnings (including the split length-mismatch warning, which never changes a result) are left out.
- Validation messages that list keys in Python set order are abstracted to fixed strings.
- `clean_translation` (its `autocorrect` call), `align_timestamp_main`, and the length trim `check_len_then_trim` in `translate_all` are left out.
- The unused `words` table built at the start of `align_timestamp` is not modelled.
- Gpt.Verdict: a validator either returns a status or crashes with some other exception. A validator that itself raises `ValueError`, which `ask_gpt` re-raises without writing an `error` log record, is not expressible; none of the three modelled validators does so.
- Json.Json: `JNum` holds integers only; JSON floats are not represented (as a list index in `valid_translate_result` a float raises `TypeError`). None of the modelled validators or callers depends on a float.
