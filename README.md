# Prompt chunker and Rentvine route builder, in Dafny

This project models two pieces of the HackathonBE backend and proves properties of them.

**`chunk_for_lm_studio`** (`HackathonBE/promptParsing.py`) splits a document into chunks that
fit a per-message token budget for a language model. This model covers its approximate
(word-count) mode. Here a text of `w` words counts `ceil(w / 0.75)` tokens, and trimming to
`t` tokens keeps the first `max(1, floor(0.75 t))` words. The budget is
`hard_cap = max_tokens - max(0, reserve_tokens)`, and the call is refused when the budget is
not positive. Otherwise the text goes through these steps:

- Line endings are normalised.
- The text is cut into paragraphs at runs of two or more newlines.
- Paragraphs are packed greedily into chunks joined by blank lines.
- A paragraph over the budget is split into sentences, which are packed greedily with single
  spaces between them.
- A sentence over the budget is hard-wrapped by words.
- Optionally, every chunk after the first gets the last words of the chunk before it put in
  front, and the result is trimmed back to the budget when it no longer fits.
- Each chunk becomes a record with its index, the total, its SHA-256 digest and the running
  token range `[start_token, end_token]`.

**`build_api_url`** (`HackathonBE/apiRoutes.py`) maps a Rentvine web page URL to the manager
API URL (or URLs) of the same object. It runs a first-match search over a table of eight routes.
Seven routes carry a numeric id and append a pre-encoded `includes` query. One route, the
accounting diagnostics, maps to two endpoints.

The model is organised as follows:

- `Text` models Python's `str.split()`, `join` and `strip` over `str.isspace()`.
- `TokenMeter` is the word-count token meter. The factor 0.75 is written exactly, as
  `ceil(4w/3)` and `floor(3t/4)`.
- `Segmenter` has the newline normalisation, the paragraph split and the sentence split.
- `ProseSplitter` has pure functions that say which chunks come out. Its class `Splitter` keeps
  the state the source updates in place (`chunks`, `current`, `current_tokens`), with methods
  proved to produce exactly those chunks.
- `Overlap` is the overlap pass, both as a loop method and as a specification function.
- `Chunker` is the metadata pass and the whole function.
- `ApiRoutes` has the route table and `build_api_url`.

The main results:

- The chunks' words, in order, are exactly the words of the text when there is no overlap.
- The paragraph and sentence splits cut exactly at the pattern's matches: the pieces and the
  runs cut out between them interleave back into the text, and no piece holds a match of its own.
- There is always at least one chunk.
- Every chunk is within the budget: with a budget of 2 or more, a chunk counts at most the
  budget. With a budget of 1, a chunk is a single word or no word at all, since one word alone
  counts 2 tokens.
- The overlap keeps every chunk within the budget.
- The token ranges of the records tile `[0, total tokens)`.
- The call fails exactly when the budget is not positive.
- No URL path matches two routes of the table, so a path's result does not depend on the
  table's order.
- `build_api_url` fails exactly on the paths no route matches, and then always with the
  unsupported-path error. The non-numeric id error can never be raised, because the id
  patterns only capture digits.
- An id path gives `base + api_path(id) + "?includes=" + includes`.
- A trailing `/` and the URL's query string never change the result.

The source's comment on the overlap trim says it trims "the *front* (i.e., the tail)". The code
keeps the leading words of `tail + "\n" + chunk`, so it cuts the end of the chunk and keeps the
overlap tail. The model follows the code. `Overlap.OverlapStepPrefix` states the general fact
and `Overlap.TrimCutsChunkEnd` gives a concrete instance.

## Model

| member | source | states |
|---|---|---|
| Text.IsSpace | HackathonBE/promptParsing.py:59 | defines the whitespace of `str.isspace()`, `split()`, `strip()` and `\s`: ASCII whitespace, the separator controls 0x1C-0x1F, and the Unicode spaces |
| Text.Words | HackathonBE/promptParsing.py:59 | `s.split()`: every element is a non-empty run of non-whitespace characters |
| Text.Join | HackathonBE/promptParsing.py:66 | defines `sep.join(xs)`: the pieces in order with `sep` between consecutive ones, `""` for no piece |
| Text.LStrip | HackathonBE/promptParsing.py:86 | the leading part of `strip()`: a suffix of s that does not start with whitespace |
| Text.RStrip | HackathonBE/promptParsing.py:86 | the trailing part of `strip()`: a prefix of s that does not end with whitespace |
| Text.Strip | HackathonBE/promptParsing.py:86 | `strip()`: never longer than s, and neither starts nor ends with whitespace |
| Text.LStripRemovesSpace | HackathonBE/promptParsing.py:86 | what the leading strip removes is whitespace only |
| Text.RStripRemovesSpace | HackathonBE/promptParsing.py:86 | what the trailing strip removes is whitespace only |
| Text.StripSlice | HackathonBE/promptParsing.py:86 | the stripped text is a slice `s[i..j]` of s, with only whitespace before i and after j |
| Text.WordsOfStrip | HackathonBE/promptParsing.py:86 | stripping keeps the words of a string |
| Text.StripEmpty | HackathonBE/promptParsing.py:149 | `big.strip()` is empty exactly when `big` has no words |
| Text.WordsOfJoin | HackathonBE/promptParsing.py:86 | joining with a whitespace separator gives the pieces' words, in order |
| Text.WordsOfJoinedWords | HackathonBE/promptParsing.py:66 | `" ".join(words)` splits back into the same words |
| Text.WordsOfStrippedJoin | HackathonBE/promptParsing.py:125 | a stripped join of pieces has the pieces' words, in order |
| TokenMeter.TokensForWords | HackathonBE/promptParsing.py:60 | `ceil(w / 0.75)`: the least t with 3t >= 4w |
| TokenMeter.CountTokens | HackathonBE/promptParsing.py:56-60 | the count is ceil(4w/3) for w words, and 0 exactly when there are no words |
| TokenMeter.AllowedWords | HackathonBE/promptParsing.py:65 | `max(1, floor(0.75 t))`: at least 1, and floor(3t/4) when that is at least 1 |
| TokenMeter.TrimToTokens | HackathonBE/promptParsing.py:62-66 | the result's words are the first `AllowedWords(t)` words, or all of them when there are fewer; for t >= 2 it counts at most t tokens |
| TokenMeter.SumTokens | HackathonBE/promptParsing.py:95-101 | defines the tally `current_tokens` and `running_tok` keep: the sum of the pieces' counts |
| TokenMeter.TokensMonotone | HackathonBE/promptParsing.py:56-60 | more words never count fewer tokens |
| TokenMeter.TokensSubadditive | HackathonBE/promptParsing.py:95-98 | the count of two word runs together is at most the sum of their counts |
| TokenMeter.SeparatorsCountZero | HackathonBE/promptParsing.py:95-98 | the separators `"\n\n"`, `" "` and `"\n"` count 0 tokens |
| TokenMeter.TrimWithinBudget | HackathonBE/promptParsing.py:135-137 | trimming a text with words to a positive target gives a chunk within that budget |
| TokenMeter.WithinBudgetBound | HackathonBE/promptParsing.py:68-70 | with a budget of 2 or more, a chunk within the budget counts at most the budget |
| TokenMeter.SumTokensAppend | HackathonBE/promptParsing.py:186-199 | the running token sum over two lists is the sum of the two sums |
| TokenMeter.TokensOfAllBound | HackathonBE/promptParsing.py:95-98 | the count of all pieces' words together is at most the sum of the pieces' counts |
| TokenMeter.JoinedTokensBound | HackathonBE/promptParsing.py:82-89 | a stripped join of pieces counts at most the sum of the pieces' counts |
| Segmenter.ReplaceCrLf | HackathonBE/promptParsing.py:73 | `replace("\r\n", "\n")`: never longer than the text, and a text without `\r` is unchanged |
| Segmenter.ReplaceCr | HackathonBE/promptParsing.py:73 | `replace("\r", "\n")`: same length, no `\r` left, every other character kept |
| Segmenter.NormalizeNewlines | HackathonBE/promptParsing.py:73 | the normalised text contains no `\r` |
| Segmenter.NormalizeNewlinesWords | HackathonBE/promptParsing.py:73 | normalising line endings keeps the words of the text |
| Segmenter.NormalizeNewlinesIdentity | HackathonBE/promptParsing.py:73 | a text without `\r` is left unchanged |
| Segmenter.NormalizeCrLf | HackathonBE/promptParsing.py:73 | a leading `"\r\n"` becomes one `"\n"` and the rest is normalised on its own |
| Segmenter.NormalizeLoneCr | HackathonBE/promptParsing.py:73 | a leading `\r` not followed by `\n` becomes `"\n"` and the rest is normalised on its own |
| Segmenter.NormalizeOther | HackathonBE/promptParsing.py:73 | a leading character other than `\r` is kept and the rest is normalised on its own |
| Segmenter.ParagraphBreak | HackathonBE/promptParsing.py:76 | the first position of `"\n\n"` at or after i, or the end when there is none |
| Segmenter.NewlineRunEnd | HackathonBE/promptParsing.py:76 | the end of the newline run `\n{2,}` consumes |
| Segmenter.SplitParagraphs | HackathonBE/promptParsing.py:76 | `re.split(r"\n{2,}")`: at least one piece, and no piece contains two newlines in a row |
| Segmenter.IsNewlineRun | HackathonBE/promptParsing.py:76 | defines what `\n{2,}` consumes: two or more newlines and nothing else |
| Segmenter.ParagraphSeparators | HackathonBE/promptParsing.py:76 | the runs the paragraph split cuts out are runs of two or more newlines |
| Segmenter.SplitParagraphsRejoin | HackathonBE/promptParsing.py:76 | there is one separator fewer than paragraphs, and the paragraphs interleaved with the separators give back the text |
| Segmenter.SplitParagraphsEdges | HackathonBE/promptParsing.py:76 | no paragraph but the last ends with `\n`, no paragraph but the first starts with one, and no paragraph between two cuts is empty, so each cut takes a whole maximal newline run |
| Segmenter.SplitParagraphsWords | HackathonBE/promptParsing.py:76 | the paragraphs' words, in order, are the text's words |
| Segmenter.IsTerminal | HackathonBE/promptParsing.py:109 | defines the lookbehind class `[.!?]` |
| Segmenter.IsSentenceStart | HackathonBE/promptParsing.py:109 | defines the lookahead class `[A-Z0-9"']` |
| Segmenter.SpaceRunEnd | HackathonBE/promptParsing.py:109 | the end of the whitespace run `\s+` consumes |
| Segmenter.SentenceBreakAt | HackathonBE/promptParsing.py:109 | defines a match of the sentence pattern at j: a terminal mark before j, whitespace from j, and a sentence-start character right after that whitespace run |
| Segmenter.SentenceBreak | HackathonBE/promptParsing.py:109 | the first position where the sentence pattern matches, or the end when it matches nowhere |
| Segmenter.SplitSentences | HackathonBE/promptParsing.py:109 | at least one piece; every piece but the last ends with `.`, `!` or `?`; every piece but the first starts with a character of `[A-Z0-9"']` |
| Segmenter.SentenceSeparators | HackathonBE/promptParsing.py:109 | the runs the sentence split cuts out are non-empty whitespace runs |
| Segmenter.SplitSentencesRejoin | HackathonBE/promptParsing.py:109 | there is one separator fewer than sentences, and the sentences interleaved with the separators give back the paragraph |
| Segmenter.FirstSentenceNoBreak | HackathonBE/promptParsing.py:109 | the text before the first match of the sentence pattern holds no match of its own |
| Segmenter.SplitSentencesNoBreak | HackathonBE/promptParsing.py:109 | the sentence pattern matches nowhere inside any sentence |
| Segmenter.SplitSentencesWords | HackathonBE/promptParsing.py:109 | the sentences' words, in order, are the paragraph's words |
| ProseSplitter.Flushed | HackathonBE/promptParsing.py:82-89 | a flush appends one chunk, the stripped join of the buffer, exactly when the buffer is non-empty, and nothing otherwise; `flush_current` joins by `"\n\n"` and the sentence flushes at lines 125, 131 and 152 by `" "` |
| ProseSplitter.HardWrap | HackathonBE/promptParsing.py:133-150 | defines the hard-wrap slices: while over the budget, the stripped trim and then the words after it; a remainder with words is the last slice |
| ProseSplitter.SentenceStep | HackathonBE/promptParsing.py:112-150 | defines one iteration of the sentence loop: the chunks it emits and the new buffer and its count |
| ProseSplitter.PackSentences | HackathonBE/promptParsing.py:110-152 | defines the sentence loop and its final flush as a fold of `SentenceStep` |
| ProseSplitter.OversizedParagraph | HackathonBE/promptParsing.py:106-152 | defines the chunks of a paragraph over the budget: its stripped text split into sentences and packed |
| ProseSplitter.ParagraphStep | HackathonBE/promptParsing.py:91-154 | defines one iteration of the paragraph loop: the chunks it emits and the new pending list and its count |
| ProseSplitter.PackParagraphs | HackathonBE/promptParsing.py:91-156 | defines the paragraph loop and its final flush as a fold of `ParagraphStep` |
| ProseSplitter.ProseChunks | HackathonBE/promptParsing.py:72-156 | defines the splitting phase: normalise, split into paragraphs, pack |
| ProseSplitter.WrapRemainder | HackathonBE/promptParsing.py:144-148 | what is left after a hard-wrap slice has exactly the words after the slice |
| ProseSplitter.OverBudgetHasAllowedWords | HackathonBE/promptParsing.py:135-136 | a text over the budget has at least as many words as one trim keeps |
| ProseSplitter.WrapSliceShape | HackathonBE/promptParsing.py:136-137 | a hard-wrap slice is the first `AllowedWords` words and is within the budget |
| ProseSplitter.HardWrapWords | HackathonBE/promptParsing.py:133-150 | the hard-wrap slices' words, in order, are the sentence's words |
| ProseSplitter.HardWrapWithinBudget | HackathonBE/promptParsing.py:133-150 | every slice has words and is within the budget, and a sentence over the budget gives at least one slice |
| ProseSplitter.HardWrapFullSlices | HackathonBE/promptParsing.py:135-148 | every slice but the last has exactly `AllowedWords(hard_cap)` words |
| ProseSplitter.FlushedWords | HackathonBE/promptParsing.py:82-89 | flushing with a whitespace separator keeps the buffered words, in order |
| ProseSplitter.FlushedWithinBudget | HackathonBE/promptParsing.py:82-89 | when the pieces' counts sum to at most the budget, the flushed chunk counts at most the budget |
| ProseSplitter.SentenceStepWords | HackathonBE/promptParsing.py:112-150 | one sentence step keeps the words: emitted chunks plus the new buffer hold the old buffer and then the sentence |
| ProseSplitter.SentenceStepBudget | HackathonBE/promptParsing.py:112-150 | one sentence step emits chunks within the budget and keeps the buffer's tracked total exact and within the budget |
| ProseSplitter.SentenceStepNonEmpty | HackathonBE/promptParsing.py:112-150 | after a sentence step something is buffered or emitted |
| ProseSplitter.PackSentencesWords | HackathonBE/promptParsing.py:110-152 | the sentence packer's chunks hold the buffer's words and then the sentences' words |
| ProseSplitter.PackSentencesBudget | HackathonBE/promptParsing.py:110-152 | every chunk of the sentence packer is within the budget |
| ProseSplitter.PackSentencesNonEmpty | HackathonBE/promptParsing.py:110-152 | the sentence packer emits at least one chunk when it has any sentence |
| ProseSplitter.OversizedParagraphWords | HackathonBE/promptParsing.py:106-152 | an oversized paragraph's chunks hold exactly its words |
| ProseSplitter.OversizedParagraphNonEmpty | HackathonBE/promptParsing.py:106-152 | an oversized paragraph gives at least one chunk |
| ProseSplitter.ParagraphStepWords | HackathonBE/promptParsing.py:91-154 | one paragraph step keeps the words: emitted chunks plus the pending paragraphs hold the old pending paragraphs and then the paragraph |
| ProseSplitter.ParagraphStepBudget | HackathonBE/promptParsing.py:91-154 | one paragraph step emits chunks within the budget and keeps `current_tokens` exact and within the budget |
| ProseSplitter.ParagraphStepNonEmpty | HackathonBE/promptParsing.py:91-154 | after a paragraph step something is pending or emitted |
| ProseSplitter.PackParagraphsWords | HackathonBE/promptParsing.py:91-156 | the paragraph packer's chunks hold the pending words and then the paragraphs' words |
| ProseSplitter.PackParagraphsBudget | HackathonBE/promptParsing.py:91-156 | every chunk of the paragraph packer is within the budget |
| ProseSplitter.PackParagraphsNonEmpty | HackathonBE/promptParsing.py:91-156 | the paragraph packer emits at least one chunk |
| ProseSplitter.ProseChunksWords | HackathonBE/promptParsing.py:72-156 | the chunks' words, one chunk after the other, are exactly the text's words |
| ProseSplitter.ProseChunksBudget | HackathonBE/promptParsing.py:72-156 | at least one chunk; all within the budget; with a budget of 2 or more each counts at most the budget |
| ProseSplitter.Splitter.constructor | HackathonBE/promptParsing.py:78-80 | the splitter starts with no chunks, nothing pending and a zero count |
| ProseSplitter.Splitter.FlushCurrent | HackathonBE/promptParsing.py:82-89 | `flush_current`: appends the stripped blank-line join of the pending paragraphs, if any, and empties the pending list |
| ProseSplitter.Splitter.HardWrapSentence | HackathonBE/promptParsing.py:128-150 | the hard-wrap loop appends exactly the hard-wrap slices of the sentence |
| ProseSplitter.Splitter.AddSentence | HackathonBE/promptParsing.py:112-150 | one iteration of the sentence loop performs one sentence step on the buffer and the chunk list |
| ProseSplitter.Splitter.AddSentences | HackathonBE/promptParsing.py:108-152 | the sentence loop and its final flush append exactly the sentence packer's chunks |
| ProseSplitter.Splitter.AddOversizedParagraph | HackathonBE/promptParsing.py:106-154 | an oversized paragraph flushes the pending paragraphs, appends its sentence chunks and resets the packer |
| ProseSplitter.Splitter.AddFittingParagraph | HackathonBE/promptParsing.py:93-105 | a paragraph within the budget joins the pending list, or starts a new one after a flush |
| ProseSplitter.Splitter.AddParagraph | HackathonBE/promptParsing.py:91-154 | one iteration of the paragraph loop performs one paragraph step |
| ProseSplitter.SplitProse | HackathonBE/promptParsing.py:72-156 | the splitting phase returns exactly `ProseChunks(text, hard_cap)` |
| Overlap.Candidate | HackathonBE/promptParsing.py:177 | defines the candidate: the tail, a newline and the chunk, stripped |
| Overlap.OverlapStep | HackathonBE/promptParsing.py:177-181 | defines one iteration of the overlap loop: the candidate, trimmed to the budget when it counts more |
| Overlap.Overlapped | HackathonBE/promptParsing.py:158-182 | defines the overlap pass: the chain of overlap steps when the overlap is positive and there are two or more chunks, the list unchanged otherwise |
| Overlap.OverlapTail | HackathonBE/promptParsing.py:173-175 | the tail's words are the last `min(max(1, floor(0.75 overlap)), n)` words of the previous chunk |
| Overlap.Chain | HackathonBE/promptParsing.py:160-182 | the overlap loop keeps the number of chunks |
| Overlap.CandidateWords | HackathonBE/promptParsing.py:177 | the candidate's words are the tail's words followed by the chunk's words |
| Overlap.OverlapStepWords | HackathonBE/promptParsing.py:177-181 | a candidate that fits is kept whole; one over the budget keeps its first `AllowedWords(hard_cap)` words |
| Overlap.OverBudgetKeepsFewer | HackathonBE/promptParsing.py:178-180 | a trimmed candidate keeps at most its word count, and strictly fewer for a budget of 2 or more |
| Overlap.OverlapStepPrefix | HackathonBE/promptParsing.py:178-180 | the new chunk's words are a prefix of tail-then-chunk: the trim drops the chunk's end, not the overlap tail |
| Overlap.OverlapStepBudget | HackathonBE/promptParsing.py:179-180 | every overlapped chunk is within the budget |
| Overlap.ExampleTailWords | HackathonBE/promptParsing.py:174-175 | with overlap 1 the tail of "a b" is the one word "b" |
| Overlap.ExampleCandidateWords | HackathonBE/promptParsing.py:177 | the candidate for "a b" then "x y" has the words b, x, y |
| Overlap.ExampleTrim | HackathonBE/promptParsing.py:180 | trimming the words b, x, y to 3 tokens gives "b x" |
| Overlap.TrimCutsChunkEnd | HackathonBE/promptParsing.py:178-180 | with budget 3 and overlap 1, the chunk "x y" after "a b" becomes "b x": its last word is dropped |
| Overlap.ChainFirst | HackathonBE/promptParsing.py:162-164 | the first chunk is kept as it is |
| Overlap.ChainAt | HackathonBE/promptParsing.py:166-181 | chunk i > 0 is the step applied to the output chunk i - 1 and the input chunk i |
| Overlap.ChainSnoc | HackathonBE/promptParsing.py:160-181 | the loop's output after i + 1 chunks extends its output after i chunks by one step |
| Overlap.OverlappedShape | HackathonBE/promptParsing.py:158-182 | with a positive overlap the first chunk is kept and each later one is the overlap step of the previous *overlapped* chunk |
| Overlap.OverlappedBudget | HackathonBE/promptParsing.py:158-182 | the overlap pass keeps the number of chunks and keeps every chunk within the budget |
| Overlap.ApplyOverlap | HackathonBE/promptParsing.py:158-182 | the overlap loop returns exactly the overlapped chunk list |
| Chunker.HardCap | HackathonBE/promptParsing.py:68 | defines `hard_cap = max_tokens - max(0, reserve_tokens)` |
| Chunker.FinalChunks | HackathonBE/promptParsing.py:72-182 | defines the chunk contents: the prose chunks after the overlap pass |
| Chunker.Describes | HackathonBE/promptParsing.py:184-199 | defines what the metadata pass builds: record i has position i, the total, chunk i, its digest and the token range after the chunks before it |
| Chunker.SumTokensPrefix | HackathonBE/promptParsing.py:196-199 | `running_tok` after chunk i is the count of the chunks before it plus chunk i's own count |
| Chunker.SumTokensPrefixMonotone | HackathonBE/promptParsing.py:196-199 | `running_tok` never decreases |
| Chunker.RecordsContiguous | HackathonBE/promptParsing.py:184-199 | the first record starts at token 0, each record starts right after the previous one ends, the starts never decrease, and the last ends at the total count minus 1 |
| Chunker.RecordsContents | HackathonBE/promptParsing.py:188-198 | the records carry exactly the chunks in order, with `index` = position and `total` = number of chunks |
| Chunker.PackageRecords | HackathonBE/promptParsing.py:184-199 | the metadata loop builds, for every chunk, its record with position, total, digest and running token range |
| Chunker.FinalChunksBudget | HackathonBE/promptParsing.py:68-182 | the final chunks: at least one, all within the budget, each counting at most the budget when it is 2 or more |
| Chunker.FinalChunksWords | HackathonBE/promptParsing.py:72-182 | without overlap the final chunks hold exactly the text's words, in order |
| Chunker.ChunkForLmStudio | HackathonBE/promptParsing.py:5-201 | fails, with the reserve error, exactly when `max_tokens - max(0, reserve_tokens) <= 0`; otherwise returns the records of the final chunks |
| Chunker.ChunkRecordsProperties | HackathonBE/promptParsing.py:184-201 | a successful result has at least one record, starts at token 0, keeps every record within the budget and, without overlap, carries every word of the text once, in order |
| ApiRoutes.IsDigit | HackathonBE/apiRoutes.py:29 | defines the `\d` class, over the ASCII digits |
| ApiRoutes.AllDigits | HackathonBE/apiRoutes.py:106 | defines `_id.isdigit()` for a non-empty id: every character is an ASCII digit |
| ApiRoutes.IsEndTail | HackathonBE/apiRoutes.py:29 | defines what `/?$` accepts after the id: nothing or `/`, each optionally followed by one final newline |
| ApiRoutes.IncludeFields | HackathonBE/apiRoutes.py:5-23 | defines the field names of each includes string, in the source's order |
| ApiRoutes.Includes | HackathonBE/apiRoutes.py:5-23 | defines each includes string as its field names joined by `%2C` |
| ApiRoutes.Routes | HackathonBE/apiRoutes.py:26-76 | defines the route table: the eight routes, in the source's order |
| ApiRoutes.MatchFixed | HackathonBE/apiRoutes.py:46 | defines the diagnostics pattern: the path is the prefix, optionally followed by `/`, optionally followed by one final newline |
| ApiRoutes.Matches | HackathonBE/apiRoutes.py:96 | defines `route["pattern"].match(path)` for either kind of route |
| ApiRoutes.IncludesQuery | HackathonBE/apiRoutes.py:110-111 | defines the `?includes=` suffix: appended only for a non-empty includes string |
| ApiRoutes.RouteResult | HackathonBE/apiRoutes.py:100-112 | defines what a matching route builds: the prefixed list for the diagnostics route, or base, API path with the id, and the includes query |
| ApiRoutes.Dispatch | HackathonBE/apiRoutes.py:95-114 | defines the route loop: the first matching route decides, and no match gives the unsupported-path error |
| ApiRoutes.BuildApiUrl | HackathonBE/apiRoutes.py:91-114 | defines `build_api_url` on the parsed URL: the base from scheme and netloc, the path with trailing slashes stripped, then the route loop |
| ApiRoutes.IncludesNonEmpty | HackathonBE/apiRoutes.py:5-23 | every includes string is non-empty, so every id route appends its includes query |
| ApiRoutes.DigitRun | HackathonBE/apiRoutes.py:29 | `\d+` consumes the longest run of digits |
| ApiRoutes.MatchId | HackathonBE/apiRoutes.py:29 | an id the pattern captures is a non-empty run of digits |
| ApiRoutes.MatchIdIff | HackathonBE/apiRoutes.py:29-73 | an id pattern matches with id d exactly when the path is prefix + d, optionally followed by `/`, optionally followed by one final newline |
| ApiRoutes.RStripSlashes | HackathonBE/apiRoutes.py:93 | `rstrip("/")`: a prefix of the path that does not end in `/`, and only slashes were removed |
| ApiRoutes.Prefixed | HackathonBE/apiRoutes.py:102 | `[base + p for p in paths]`: one URL per path, in order |
| ApiRoutes.DispatchFirstMatch | HackathonBE/apiRoutes.py:95-112 | the route loop returns what the first matching route builds |
| ApiRoutes.DispatchNoMatch | HackathonBE/apiRoutes.py:95-114 | the route loop fails exactly when no route matches, and then with the unsupported-path error |
| ApiRoutes.RoutesDisjoint | HackathonBE/apiRoutes.py:26-76 | no path matches two routes of the table |
| ApiRoutes.BuildApiUrlRoute | HackathonBE/apiRoutes.py:91-112 | a path that route i matches gets what route i builds, whatever the table order |
| ApiRoutes.BuildApiUrlFails | HackathonBE/apiRoutes.py:104-114 | the call fails exactly when no route matches the stripped path, only with the unsupported-path error naming that path, and never with the non-numeric id error |
| ApiRoutes.BuildApiUrlTrailingSlash | HackathonBE/apiRoutes.py:93 | appending `/` to the path does not change the result |
| ApiRoutes.BuildApiUrlIgnoresQuery | HackathonBE/apiRoutes.py:91-93 | the URL's params, query and fragment do not change the result |
| ApiRoutes.IdRouteUrl | HackathonBE/apiRoutes.py:104-112 | an id route gives `scheme://netloc + api_path(id) + "?includes=" + includes` with the id the path carries |
| ApiRoutes.DiagnosticsUrls | HackathonBE/apiRoutes.py:100-102 | the diagnostics path gives the accounts URL and then the diagnostics URL, with no includes |
| ApiRoutes.ProjectsUrl | HackathonBE/apiRoutes.py:38-42 | a maintenance project maps onto the work-orders projects endpoint with the projects includes |
| ApiRoutes.ExamplePropertiesUrl | HackathonBE/apiRoutes.py:123 | the properties example maps to the properties endpoint with id 245 and the properties includes, and its query string is dropped |
| ApiRoutes.ExampleDiagnosticsUrl | HackathonBE/apiRoutes.py:122 | the diagnostics example, with a trailing slash, maps to the two accounting endpoints |
| ApiRoutes.NoIdAfterPrefix | HackathonBE/apiRoutes.py:29 | the id pattern fails when the character after the prefix is not a digit |
| ApiRoutes.ExampleUnsupported | HackathonBE/apiRoutes.py:114 | a work-order path with a non-numeric id is rejected as unsupported |

## Left out

- The exact tokenizer mode: when `tiktoken` is installed, the source counts, trims, hard-wraps
  and takes overlap tails with a real tokenizer (`promptParsing.py` lines 39-51, 139-143 and
  168-171). The model has the word-count mode only, so `encoding_name` plays no part.
- SHA-256 is not modelled. The digest is a function parameter `hash`, and the records are proved
  to carry `hash(content)`.
- `urlparse` is not modelled. `build_api_url` takes the parsed URL (`ApiRoutes.ParsedUrl`) as its
  input, and the string-level URL parsing is not part of this model.
- The factor 0.75 is a float in the source. The model uses the exact integer forms ceil(4w/3) and
  max(1, floor(3t/4)). These agree with the float formulas for counts far below 2^53.
- `\d` and `str.isdigit()` are modelled as the ASCII digits only. Python also accepts other
  Unicode decimal digits in both. For a path whose id holds such digits the model returns the
  unsupported-path error, while the source builds a URL with that id.
- Dafny strings hold Unicode scalar values. A Python string may also hold a lone surrogate, on
  which `c.encode("utf-8")` (`promptParsing.py` line 190) raises; such text is outside the model.
- The regular expressions are modelled by string functions written for these patterns. No
  general regex engine is modelled.
- Default argument values (`overlap_tokens=64`, `reserve_tokens=0`) are not modelled. Callers
  pass every argument.
- `build_api_url` returns one string for an id route and a list for the diagnostics route, while
  its docstring promises a list. The model follows the code, with `ApiUrls.Single` and
  `ApiUrls.Multiple`.
- ApiRoutes.BuildApiUrlIgnoresQuery: holds by construction, because the model reads only the
  scheme, netloc and path of the parsed URL, as the source does.
- ApiRoutes.IncludesNonEmpty: the includes strings are written as their field-name lists joined
  by `%2C`. That is the same text as the source's literals, but the model does not copy them
  verbatim.
- The rest of the repository (the web app, the entry points, the tests and the frontend) is not
  part of this model.
