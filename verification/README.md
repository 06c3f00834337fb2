# MTL-Tools translation core, modelled in Dafny

MTL-Tools machine-translates the script files of a game. Each script is a
JSON record set: a list of blocks, each with a block index, a Japanese
speaker name and line (`jpName`, `jpText`), their English targets
(`enName`, `enText`) and an optional list of choices, each with its own
`jpText` and `enText`. The tool has three parts, and this project models
the core of each.

- **The translator** (`TranslationPipeline` in `translate.py`). It fills
  every empty target whose source is not empty. It sends requests to an
  OpenAI-style chat-completion service, in one of two ways:
  - one unit at a time (the sequential driver), or
  - in numbered batches (the batched driver), with an optional second
    pass. The second pass re-translates with another model every unit
    whose translation still holds Japanese.

  Along the way the translator:
  - applies a term dictionary before sending text;
  - keeps a FIFO context window of recent blocks;
  - retries failed requests and answers that still hold Japanese;
  - finally clears the placeholder name "Monologue".
- **The export** (`export_to_excel.py`). It writes a record set to a QC
  sheet: one row per block and one per choice.
- **The import** (`import_from_excel.py`). It reads a QC sheet back and
  merges it into a record set. A non-empty QC value beats the sheet's text.
  The import also finds the file a sheet belongs to.

## How the model is built

- **The record set** is the class `Records.RecordSet`. Its field `blocks`
  is a sequence of `Block` values. A translation unit is addressed by a
  `Slot`, which is a block's name, a block's text, or one choice of a block.
- **The chat service** is the class `Remote.Service`.
  - It answers from a script of outcomes: a failed POST, or the content
    of the reply.
  - It logs every request: the model, the temperature and the user
    message.
  - The replies a call will receive are therefore an input, and every
    result is a function of that script.
- **Pure definitions.** What each translator operation computes is first
  defined as a function (modules `Rounds`, `Passes`, `Runs`), with its
  properties proved as lemmas.
- **Methods.** The class `Pipeline.TranslationPipeline` has a method for
  each source method that changes state or calls the service. The three
  that only compute are module-level members: `preprocess_text` is
  `Dictionary.PreprocessText`, `contains_japanese` is `Script.ScanForJapanese`
  and `build_context_string` is `Context.BuildContextString`.
- **What the methods are proved to do.** Each method is proved to leave
  the record set, the context window, the model and the replies script
  exactly as its function says.
  - The request log is stated request by request for `CallLlm`,
    `TranslateText` and `TranslateBatch`.
  - In the drivers, the log is stated by its length.
  - The batched driver also states the model and temperature of each
    entry it adds (`Remote.LoggedUnder`). The first pass's entries carry
    the current model and temperature, and the second pass's entries
    carry the second model and temperature. The sequential driver's
    methods do not state them.
- **The QC sheet** is a list of rows of cells (`Sheets`).
- **The import merge** works in place on the record set
  (`Import.ApplyUpdates`), against the function `Import.ApplyAll`.
- **Findings.** Two defects found while specifying the import are logged
  under "## Findings". Each has an as-written model and a corrected model.
- **The round trip** (`RoundTrip`) proves what the three parts promise
  together: exporting a record set and importing the unedited sheet
  changes nothing.

## Model

| member | source | states |
|---|---|---|
| Strings.Strip | translate.py:131 | the stripped reply is never longer than the reply |
| Strings.TrimStartFacts | translate.py:131 | stripping the front removes exactly the leading white space: what remains is a suffix of the text that does not start with white space |
| Strings.TrimEndFacts | translate.py:131 | stripping the back removes exactly the trailing white space: what remains is a prefix of the text that does not end with white space |
| Strings.StripFacts | translate.py:131 | a stripped text has no white space at either end, and is empty exactly when the text is all white space |
| Strings.StripOfStripped | translate.py:192 | a line without white space at its ends is its own strip, so stripping it again changes nothing |
| Strings.SplitChar | translate.py:189 | `split('\n')` always gives at least one piece, and no piece holds a line break |
| Strings.SplitJoin | translate.py:189 | splitting a text joined from line-free pieces gives back exactly those pieces |
| Strings.SplitOnJoin | translate.py:38 | the pieces that `str.replace` cuts a text into join back to that text |
| Strings.ReplaceBySelf | translate.py:38 | replacing a term by itself leaves every text unchanged |
| Strings.ReplaceAbsent | translate.py:38 | a non-empty term that does not occur in a text leaves that text unchanged |
| Strings.NatToString | export_to_excel.py:85 | the choice number in a key is a non-empty run of decimal digits |
| Strings.IntToString | import_from_excel.py:101 | `str()` of an int, as applied to a numeric key cell here and by the export's f-string at export_to_excel.py:85: digits, possibly after a sign, never starting with white space |
| Strings.ParseIntToString | import_from_excel.py:111 | `int(str(i)) == i` for every integer, so a printed block index reads back as itself |
| Strings.IntToStringInjective | export_to_excel.py:85 | different block indices print differently |
| Records.SetTarget | translate.py:354-361 | writing a unit's target sets that unit and no other, and keeps every source text and the shape |
| Records.ChoiceKeyInjective | import_from_excel.py:149 | a key "{blockIdx}-C{n}" names exactly one (block index, choice) pair |
| Records.RecordSet.constructor | translate.py:233-234 | the record set holds the loaded blocks |
| Records.RecordSet.Write | translate.py:355-361 | `obj[field] = value` changes the record set exactly as `SetTarget` says |
| Script.ContainsJapanese | translate.py:41-52 | true exactly when some character is hiragana, katakana or a CJK ideograph (U+3040-309F, U+30A0-30FF, U+4E00-9FFF); false for the empty text |
| Script.ValidityExamples | translate.py:41-52 | hiragana "あ" is flagged and "Hello" is not |
| Script.ScanForJapanese | translate.py:41-52 | the scan that stops at the first Japanese character answers exactly `ContainsJapanese` |
| Dictionary.PreprocessText | translate.py:35-39 | the replacement loop applies each dictionary entry once, in dictionary order |
| Dictionary.PreprocessNoTerm | translate.py:35-39 | a text containing no dictionary term is sent as it is |
| Dictionary.PreprocessIdentityTerms | translate.py:35-39 | entries that map a term to itself change no text |
| Context.PushFacts | translate.py:54-63 | capacity 0 or less: the window never changes; otherwise the new entry comes last, after a suffix of the old window, the capacity is never exceeded, and a full window loses its oldest entry |
| Context.PushAllKeepsLast | translate.py:54-63 | from an empty window of capacity c > 0, after n additions the window is the last min(c, n) entries in order (FIFO) |
| Context.PushOntoLast | translate.py:54-63 | one more addition to the FIFO window of the earlier entries gives the FIFO window of all of them |
| Context.FifoExample | translate.py:54-63 | with capacity 2, adding A, B, C leaves [B, C] |
| Context.EntryLines | translate.py:69-74 | one context line per window entry, in window order |
| Context.RenderContext | translate.py:65-76 | the context preamble is empty exactly when the window is empty |
| Context.BuildContextString | translate.py:65-76 | the loop over the window builds exactly the preamble `RenderContext` defines |
| Remote.UserMessage | translate.py:84-95 | without context, the user message is the instruction followed by the text alone |
| Remote.Service.constructor | translate.py:115-121 | the service starts with its scripted replies and an empty log |
| Remote.Service.Post | translate.py:115-132 | one POST consumes exactly one scripted outcome and appends exactly its request to the log |
| Remote.Transport | translate.py:115-140 | `call_llm` with k retries left makes between 1 and k + 1 POSTs |
| Remote.TransportFirstSuccess | translate.py:115-140 | the call succeeds exactly when one of its first k + 1 POSTs succeeds; it then stops at the first success and returns that content stripped; with no success it makes all k + 1 POSTs and returns None |
| Remote.TransportDown | translate.py:134-140 | with the service down, the call gives up with None after k + 1 POSTs |
| Rounds.PreAll | translate.py:172 | one substituted text per input text, at the same position |
| Rounds.TextCall | translate.py:142-166 | a `translate_text` result is never empty unless it is the dictionary-substituted input |
| Rounds.TextRounds | translate.py:152-166 | the rounds after the name shortcut keep that guarantee |
| Rounds.Answer | translate.py:188-206 | a non-empty reply gives one result per submitted text, each a parsed line or, past the end of the parse, that text's substitution |
| Rounds.FitKeepsNonEmpty | translate.py:203-206 | padding a parse of non-empty lines leaves each result non-empty or the substitution at its position |
| Rounds.BatchCall | translate.py:168-224 | `translate_batch` returns exactly one result per text, each non-empty or that text's substitution |
| Rounds.BatchRounds | translate.py:184-224 | the rounds of a non-empty batch give one parsed-or-padded result per text |
| Rounds.TextCallFacts | translate.py:142-166 | a name the dictionary changes costs no POST; otherwise the call runs at least one round and at most the rounds left, each of at most k + 1 POSTs; a fallback returns the substitution; a result still holding Japanese, with retry on Japanese enabled, means the retries ran out |
| Rounds.BatchCallCost | translate.py:168-224 | an empty batch makes no request; otherwise between one round and the rounds left, each of at most k + 1 POSTs |
| Rounds.BatchCallValue | translate.py:184-224 | a fallback returns all substitutions; a batch result still holding Japanese, with retry on Japanese enabled, means the retries ran out |
| Rounds.TextServiceDown | translate.py:152-154 | with the service down, a text comes back as its substitution after one round of k + 1 POSTs |
| Rounds.BatchServiceDown | translate.py:184-186 | with the service down, a batch comes back as its substitutions |
| Rounds.TextAnswered | translate.py:152-166 | a first reply that is clean, non-empty and free of Japanese is taken as it is, after one POST |
| Rounds.BatchAnswered | translate.py:184-224 | a first reply in the requested numbered format, one Japanese-free line per text, gives exactly those lines after one POST |
| Rounds.TextKeepsRetrying | translate.py:156-164 | a Japanese answer is retried while rounds remain: when every round answers the same Japanese text, all remaining rounds run and that answer is kept |
| BatchCodec.LeadingDigits | translate.py:197 | the length of the longest prefix of digits |
| BatchCodec.MatchNumbered | translate.py:197-199 | a numbered line yields a non-empty text |
| BatchCodec.ParseLine | translate.py:191-201 | a reply line contributes nothing exactly when it is blank, and otherwise a non-empty text |
| BatchCodec.ParseLines | translate.py:191-201 | the parsed lines are at most as many as the reply lines, and all non-empty |
| BatchCodec.ParseReply | translate.py:188-201 | every translation recovered from a reply is non-empty |
| BatchCodec.Fit | translate.py:203-206 | exactly one result per submitted text: the parsed line at its position, or the substituted text when the parse is short; a long parse is cut |
| BatchCodec.ParseReplyLines | translate.py:188-201 | the parsing loop recovers exactly `ParseReply` |
| BatchCodec.PadToCount | translate.py:203-206 | the padding loop and the cut give exactly `Fit` |
| BatchCodec.MatchNumberedLine | translate.py:197-199 | the line "{k}. {t}" matches, with group 1 exactly t |
| BatchCodec.NumberedReplyStripped | translate.py:189 | a numbered reply has no white space at either end, so stripping it changes nothing |
| BatchCodec.ParseNumberedReply | translate.py:178-201 | round trip: a reply in the requested numbered format parses back to exactly the translations it carries, in order |
| BatchCodec.EmptyReply | translate.py:189-201 | an empty reply carries no translation |
| BatchCodec.ThreeLineExample | translate.py:188-206 | for a batch of three units, the reply "1. Hello\n2. World\n3. Foo" gives exactly ["Hello", "World", "Foo"], in the order sent |
| Cleanup.CleanBlock | translate.py:380-391 | never leaves a "Monologue" name; clears a text only when it is "Monologue" and the source line is blank, and then leaves no "Monologue" text; changes nothing else |
| Cleanup.BlockCleanedChanges | translate.py:385-396 | the count reported for a block is the number of its fields that changed |
| Cleanup.CleanAll | translate.py:380-391 | each block is cleaned on its own |
| Cleanup.CleanAllShape | translate.py:376-396 | the pass changes no source text, block index or choice, and leaves no "Monologue" name |
| Cleanup.CleanIdempotent | translate.py:376-396 | running the pass twice is running it once; the second run clears nothing |
| Cleanup.CleanedZero | translate.py:393-396 | blocks with nothing to clear give a total of 0 |
| Passes.NameItems | translate.py:318-319 | the collected names are pending units of the record set, in document order |
| Passes.TextItems | translate.py:321-322 | the collected texts are pending units, in document order |
| Passes.BlockChoiceItems | translate.py:324-327 | the collected choices of one block are pending choices of that block, in order |
| Passes.BlockChoiceItemsStep | translate.py:325-327 | the choices of a block are visited in order, each added exactly when it is due |
| Passes.ChoiceItems | translate.py:324-327 | the collected choices are pending units, in document order |
| Passes.PendingItems | translate.py:329 | `all_items` holds only pending units, each with its own source, ordered names, then texts, then choices |
| Passes.OrderedDistinct | translate.py:329 | no unit is collected twice |
| Passes.PendingCollected | translate.py:308-329 | every pending unit is collected: the collection misses nothing |
| Passes.WriteFirst | translate.py:351-361 | the first n write-backs keep the record set's shape |
| Passes.WriteFirstStep | translate.py:351-361 | the n-th write-back comes after the first n - 1 |
| Passes.WriteAll | translate.py:351-361 | the write-backs keep the record set's shape |
| Passes.WriteFirstTargets | translate.py:351-361 | after the first n writes, each of those units holds its own translation |
| Passes.WriteFirstOthers | translate.py:351-361 | the first n writes leave every other unit as it was |
| Passes.WriteAllEffect | translate.py:351-361 | after the writes, each collected unit holds its own translation and every other unit keeps its text |
| Passes.FailedFirst | translate.py:363-364 | no more failures than units seen |
| Passes.FailedOf | translate.py:363-364 | no more failures than units |
| Passes.FailedOfMembers | translate.py:363-364 | a unit is recorded as failed exactly when its translation holds Japanese, and only collected units are |
| Passes.NumBatches | translate.py:336 | the smallest number of batches of the given size that covers all items |
| Passes.Batch | translate.py:341-343 | every batch is non-empty and at most the batch size |
| Passes.BatchesCover | translate.py:340-343 | the batches in order are consecutive slices that cover every item exactly once |
| Runs.Sources | translate.py:347 | one source text per item, at the same position |
| Runs.FirstPass | translate.py:340-349 | the first pass gives one translation per item |
| Runs.FirstBatch | translate.py:340-349 | a batch and the rest of the pass give one translation per remaining item |
| Runs.FirstPassStep | translate.py:340-349 | the first pass is one batch on the current replies, then the pass over the rest on the replies left |
| Runs.FirstPassBatch | translate.py:335-349 | batch k of the first pass, for k below `num_batches`, sends `all_items[k * batch_size : min(k * batch_size + batch_size, n)]` and goes on from batch k + 1, or stops after the last, so the pass makes exactly `num_batches` batch calls |
| Runs.FirstPassNoBatches | translate.py:335 | `num_batches` is 0 exactly when there are no items, and the pass over no items makes no call |
| Runs.FirstPassAnswered | translate.py:340-349 | every first-pass translation is non-empty or its source's substitution |
| Runs.FixFirst | translate.py:451-467 | second-pass writes keep the shape and count at most one fix per item |
| Runs.FixFirstStep | translate.py:451-469 | a usable translation (non-empty, free of Japanese) is written to its unit and counted; any other leaves the record set as it was |
| Runs.FixAll | translate.py:451-469 | a batch's second-pass writes keep the shape and count at most one fix per item |
| Runs.FixFirstImproves | translate.py:451-469 | second-pass writes change only failed units, and each only to a usable translation |
| Runs.SecondPass | translate.py:431-469 | the second pass fixes at most one unit per failed item |
| Runs.SecondBatch | translate.py:431-469 | one second-pass batch and the rest fix at most one unit per remaining failed item |
| Runs.SecondPassStop | translate.py:445-449 | a batch whose translations are all empty ends the pass with nothing written |
| Runs.SecondPassGo | translate.py:451-469 | otherwise the batch's usable translations are written and the pass goes on from the batch's end |
| Runs.SecondPassImproves | translate.py:398-483 | the second pass changes only failed units, and each only to a usable translation |
| Runs.BatchedRun | translate.py:303-374 | the batched driver keeps the record set's shape |
| Runs.FirstPassWrites | translate.py:340-366 | after the first pass, each pending unit holds a non-empty translation or its source's substitution, and every other unit is as it was |
| Runs.BatchedRunKeeps | translate.py:303-374 | the batched driver changes no unit that was not pending |
| Runs.BatchedRunFills | translate.py:303-374 | the batched driver leaves every pending unit with a non-empty translation or its source's substitution |
| Runs.BatchedRunCount | translate.py:366-372 | the count is one per pending unit plus the second-pass fixes, so between n and 2n; exactly n without two-pass |
| Runs.BatchedRunIdle | translate.py:330-331 | with no pending unit, the batched driver returns 0 with no POST and the record set unchanged |
| Runs.SeqChoices | translate.py:290-299 | the choice loop keeps every choice's source and counts at most one per choice |
| Runs.SeqChoice | translate.py:290-299 | the loop's last choice keeps that guarantee |
| Runs.SeqChoicesStep | translate.py:291-299 | choice c is translated after the ones before it, from the replies they left, exactly when it is due |
| Runs.SeqChoicesSettle | translate.py:290-299 | each due choice ends with a non-empty translation or its source's substitution; every other choice keeps its text |
| Runs.SeqHead | translate.py:272-286 | at most two units of a block's head are counted |
| Runs.SeqBlock | translate.py:267-299 | a block keeps its shape, and enters the context window with its name and text already translated |
| Runs.SeqBlockSettles | translate.py:267-299 | within a block, each due unit is settled and the others keep their text |
| Runs.SeqRun | translate.py:261-301 | the sequential driver keeps the record set's shape |
| Runs.SeqLast | translate.py:261-301 | the driver over all blocks but the last, then the last, keeps the shape |
| Runs.SeqRunStep | translate.py:264-299 | the driver handles the blocks in document order, carrying the window, the replies and the count from block to block |
| Runs.SeqRunPrefix | translate.py:264-299 | a block is not touched again once the driver has moved past it |
| Runs.SeqRunWindow | translate.py:264-299 | the context window is the FIFO of the translated blocks, in document order |
| Runs.SeqRunEffect | translate.py:261-301 | each due unit ends with a non-empty translation or its source's substitution, and every other unit is unchanged |
| Runs.SeqRunKeeps | translate.py:264-299 | units of earlier blocks end as the run over those blocks left them |
| Runs.SeqRunLast | translate.py:267-299 | the units of the last block are settled |
| Runs.SeqChoicesIdle | translate.py:290-299 | a choice loop with no due choice makes no POST, counts 0 and changes no choice |
| Runs.SeqRunIdle | translate.py:264-299 | with no due name, text or choice in any block, the sequential driver makes no POST, counts 0 and leaves the blocks unchanged |
| Pipeline.NumberedLinesSnoc | translate.py:179-180 | appending a text to the prompt numbers it after the lines already there |
| Pipeline.PreprocessAll | translate.py:172 | the substitution loop gives exactly `PreAll` |
| Pipeline.BuildBatchPrompt | translate.py:178-182 | the prompt loop builds the context, the instruction, one line "{i}. {text}" per text from 1, and the closing request |
| Pipeline.FindJapanese | translate.py:211-217 | the early-exit scan reports Japanese exactly when some translation holds it |
| Pipeline.ReadBatchReply | translate.py:188-217 | a non-empty reply is parsed, padded and cut to `Fit(ParseReply(reply))`, and Japanese is reported exactly when scanning is on and found |
| Pipeline.TextCallStep | translate.py:142-166 | one round of `translate_text`: a failed or empty answer falls back, a Japanese answer with rounds left is retried on the remaining replies, any other answer is taken |
| Pipeline.BatchCallStep | translate.py:168-224 | one round of `translate_batch`, with the same three outcomes over the fitted list |
| Pipeline.BatchRetryAccounts | translate.py:211-222 | when the answer still holds Japanese and retries are left, the call's result is the retry's, and its POSTs and requests are the first round's followed by the retry's |
| Pipeline.CollectPending | translate.py:308-329 | the collection loop gathers exactly `PendingItems` |
| Pipeline.CollectChoices | translate.py:324-327 | the inner loop gathers exactly the pending choices of the block, in order |
| Pipeline.WriteFirstBatch | translate.py:351-366 | one batch's write-back loop advances the writes, the failed list and the count from `start` to `end` |
| Pipeline.WriteFirstItem | translate.py:351-364 | one item's translation goes into its slot, and the item is recorded as failed exactly when that translation holds Japanese |
| Pipeline.FixBatch | translate.py:451-469 | the second-pass write loop changes the record set and counts exactly as `FixAll` |
| Pipeline.TranslationPipeline.constructor | translate.py:17-33 | a new pipeline has its settings, dictionary and context size, and an empty context window |
| Pipeline.TranslationPipeline.AddToContext | translate.py:54-63 | `add_to_context` updates the window exactly as the FIFO `Push` |
| Pipeline.TranslationPipeline.ResetContext | translate.py:226-227 | the context window is emptied and the model is kept |
| Pipeline.TranslationPipeline.CallLlm | translate.py:78-140 | `call_llm` returns what `Transport` says, consumes exactly its POSTs, and logs that many copies of one request under the current model and temperature |
| Pipeline.TranslationPipeline.TranslateText | translate.py:142-166 | `translate_text` returns `TextCall`'s result and makes exactly its POSTs, each carrying the substituted text and, for a non-name with context, the context preamble |
| Pipeline.TranslationPipeline.TextRound | translate.py:152-166 | the rest of `translate_text`, with the same result and requests |
| Pipeline.TranslationPipeline.TranslateBatch | translate.py:168-224 | `translate_batch` returns `BatchCall`'s result and makes exactly its POSTs, each carrying the numbered prompt |
| Pipeline.TranslationPipeline.BatchRound | translate.py:184-186 | one `call_llm` with the prompt; the substitutions when it fails |
| Pipeline.TranslationPipeline.BatchReply | translate.py:188-224 | a non-empty answer is parsed and padded, or the batch is retried when it holds Japanese |
| Pipeline.TranslationPipeline.BatchRetry | translate.py:219-222 | a retry is the whole call again with the next retry count, on the replies left after the first round's POSTs, with that call's result and requests |
| Pipeline.TranslationPipeline.FirstPassBatches | translate.py:336-369 | the batch loop writes every collected unit's first-pass translation, records exactly the Japanese ones as failed, and counts one per unit; every request it adds is sent under the current model and temperature |
| Pipeline.TranslationPipeline.FirstPassRound | translate.py:340-366 | one turn of the batch loop moves its state from the batch's start to its end, adding only requests under the current model and temperature |
| Pipeline.TranslationPipeline.TranslateBatchNoContext | translate.py:349 | a batch without context under the current model and temperature |
| Pipeline.TranslationPipeline.TranslateFirstBatch | translate.py:341-349 | one batch of up to `batchSize` sources translated; the translations are the next slice of the first pass, and every request is sent under the current model and temperature |
| Pipeline.TranslationPipeline.TranslateJsonBatched | translate.py:303-374 | `_translate_json_batched` leaves the record set and the count `BatchedRun` defines, and restores the model, the temperature and the context; the first pass's requests carry the original model and temperature, and every later request carries the second model and temperature |
| Pipeline.TranslationPipeline.SecondPassTranslation | translate.py:398-483 | no failed units, or no different second model: nothing happens; otherwise the second pass runs under the second model and temperature, and the primary ones are restored after; every request it adds carries the second model and temperature |
| Pipeline.TranslationPipeline.SecondPassBatches | translate.py:431-469 | the second-pass loop leaves the record set and the fix count `SecondPass` defines, adding only requests under the current model and temperature |
| Pipeline.TranslationPipeline.SecondPassRound | translate.py:431-469 | one turn of the loop: an all-empty batch stops it with nothing written, otherwise the usable translations are written and the loop goes on |
| Pipeline.TranslationPipeline.TranslateSeqBlock | translate.py:264-299 | one block of the sequential driver changes only that block, exactly as `SeqBlock` says, and pushes it onto the window |
| Pipeline.TranslationPipeline.TranslateInto | translate.py:274-275 | a unit's translation is written to that unit and nowhere else |
| Pipeline.TranslationPipeline.TranslateSeqHead | translate.py:272-286 | the name, then the text, each get `translate_text`'s result when due, and only those two fields change |
| Pipeline.TranslationPipeline.TranslateSeqName | translate.py:272-278 | a due name gets `translate_text`'s result for it as a name, and the POSTs are that call's; a name not due is kept; nothing else changes |
| Pipeline.TranslationPipeline.TranslateSeqText | translate.py:280-286 | a due text gets `translate_text`'s result for it, and the POSTs are that call's; a text not due is kept; nothing else changes |
| Pipeline.TranslationPipeline.TranslateSeqChoices | translate.py:290-299 | the choice loop changes only that block's choices, exactly as `SeqChoices` says |
| Pipeline.TranslationPipeline.TranslateSeqChoice | translate.py:291-299 | one turn of the choice loop moves its state from choice c to choice c + 1 |
| Pipeline.TranslationPipeline.TranslateJsonSequential | translate.py:261-301 | `_translate_json_sequential` leaves the record set, the window and the count `SeqRun` defines |
| Pipeline.TranslationPipeline.TranslateSeqTurn | translate.py:264-299 | one turn of the block loop moves its state from block i to block i + 1 |
| Pipeline.TranslationPipeline.CleanMonologueNames | translate.py:376-396 | the cleanup pass changes the record set exactly as `CleanAll` and returns the number of fields it cleared |
| Pipeline.TranslationPipeline.CleanAt | translate.py:380-391 | one block is cleaned and its cleared fields counted |
| Pipeline.TranslationPipeline.TranslateJsonFile | translate.py:236-250 | the context is reset, the batched or sequential driver runs by configuration, the cleanup pass follows, and the driver's count is reported |
| Sheets.ReplaceChar | export_to_excel.py:54 | one character replaced by another everywhere, the length kept |
| Sheets.SheetName | export_to_excel.py:52-54 | the sheet name has at most 31 characters, holds no path separator, and is the path's first characters with separators turned into '_' |
| Sheets.GuessRecoversShortPaths | import_from_excel.py:44 | the path guessed back from a sheet name is the file's path exactly when that path has at most 31 characters and no '_' |
| Export.WriteRows | export_to_excel.py:66-96 | the row loop writes exactly `DataRows` and ends at row 2 + blocks + choices |
| Export.WriteChoiceRows | export_to_excel.py:82-96 | the inner loop appends one row per choice, in order |
| Export.DataRowsCount | export_to_excel.py:66-96 | there is one data row per block and one per choice |
| Export.DataRowsLayout | export_to_excel.py:66-96 | document order: each block's row is followed at once by its choices' rows, in order |
| Export.DataRowsOrigin | export_to_excel.py:66-96 | every data row is the row of some block or of one of its choices |
| Export.DataRowsShape | export_to_excel.py:68-90 | every data row is seven cells wide, starts with the file's path and ends with an empty QC cell |
| Import.ColumnsUpToLast | import_from_excel.py:89-93 | a header is mapped exactly when it is configured and some header cell holds it, and then to the last such column |
| Import.BuildColumnMap | import_from_excel.py:88-93 | the header loop builds exactly `ColumnMap` |
| Import.RowKeyAsWrittenDiffers | import_from_excel.py:98 | the key test as written and the corrected one differ on exactly one cell value: the number 0 |
| Import.RowKeyOfNumber | import_from_excel.py:101-111 | a numeric cell names the block whose index it holds |
| Import.NoChoiceMarkInNumber | import_from_excel.py:103 | a printed integer never contains "-C", so it is never taken for a choice key |
| Import.RowKeyOfChoiceKey | import_from_excel.py:103-104 | a choice key as the export writes it is read as that very choice key |
| Import.AddRowOtherBlock | import_from_excel.py:109-116 | a row for another key leaves a block's update as it is |
| Import.AddRowOtherChoice | import_from_excel.py:103-108 | a row for another key leaves a choice's update as it is |
| Import.ReadRowsBlocks | import_from_excel.py:95-118 | a block index has an update exactly when some row names it, and it is the last such row's (with the corrected key test; see Findings) |
| Import.ReadRowsChoices | import_from_excel.py:95-118 | a choice key has an update exactly when some row names it, and it is the last such row's (with the corrected key test; see Findings) |
| Import.ReadSheetData | import_from_excel.py:85-120 | `read_sheet_data` returns exactly `ReadSheet` (with the corrected key test; see Findings) |
| Import.Overwrite | import_from_excel.py:142-145 | a field takes the stripped value when it is non-blank, and is counted exactly when it changes |
| Import.TextUpdate | import_from_excel.py:131-140 | a non-blank QC value wins; the sheet's text counts only without one; the count is 1 exactly when the text changes |
| Import.ApplyHead | import_from_excel.py:128-145 | only a block's name and text may change, both stay without an update under its index, and the count is how many of the two changed |
| Import.ApplyChoices | import_from_excel.py:147-163 | the choice loop keeps the number of choices |
| Import.ApplyChoicesIndex | import_from_excel.py:148-163 | choice c changes only through the update under its own key |
| Import.ApplyAll | import_from_excel.py:122-165 | the merge keeps the number of blocks |
| Import.ApplyAllIndex | import_from_excel.py:125 | each block is merged on its own |
| Import.ApplyAllBlock | import_from_excel.py:128-145 | with an update under its index, a block's text becomes the stripped QC value, else the stripped sheet text, else stays; its name likewise from the sheet; without one, both stay |
| Import.ApplyAllChoice | import_from_excel.py:147-163 | a choice keeps its source; without an update under "{blockIdx}-C{c+1}" it is unchanged; with one, the QC value wins over the sheet text |
| Import.ApplyChoicesCount | import_from_excel.py:147-163 | the choice count is the number of choice texts that changed |
| Import.ApplyBlockCount | import_from_excel.py:128-163 | a block's count is the number of its target fields that changed |
| Import.ApplyAllCount | import_from_excel.py:122-165 | only target fields change, and the count returned is the number of target fields that changed |
| Import.ApplyBlockIdempotent | import_from_excel.py:128-163 | merging a block twice is merging it once |
| Import.ApplyIdempotent | import_from_excel.py:122-165 | applying the same updates again changes nothing and counts 0 |
| Import.ApplyUpdates | import_from_excel.py:122-165 | the in-place merge changes the record set and counts exactly as `ApplyAll` |
| Import.ApplyBlockAt | import_from_excel.py:125-163 | one block's merge changes only that block |
| Import.ApplyHeadAt | import_from_excel.py:128-145 | the text and name writes change only that block's name and text |
| Import.ApplyChoicesAt | import_from_excel.py:147-163 | the choice loop changes only that block's choices |
| Import.ApplyNextChoice | import_from_excel.py:148-163 | one turn of the choice loop merges choice c after the first c |
| Import.ApplyChoiceAt | import_from_excel.py:149-163 | one choice is looked up by its key and written only when the update changes it |
| Import.FirstMatchFacts | import_from_excel.py:48-55 | the match is the first listed file with that sheet name; there is none exactly when no listed file has it |
| Import.FindMatch | import_from_excel.py:48-55 | the matching loop finds exactly `FirstMatch` |
| Import.ResolveWritesElsewhere | import_from_excel.py:57-74 | as written, a sheet "x_y" for the file "x_y" is read from "x_y" and written to "x/y" |
| Import.Resolve | import_from_excel.py:37-66 | a sheet is merged into an existing file that is both read and written: the FilePath cell's file, or else the guessed path, or else the first listed file with the same sheet name; otherwise skipped (with the corrected resolution; see Findings) |
| Import.ImportSheet | import_from_excel.py:37-81 | a sheet changes at most the file it resolves to, and creates no file (with the corrected resolution; see Findings) |
| RoundTrip.ExportedHeaderLayout | import_from_excel.py:88-96 | the reader finds each exported column where the export put it (2, 4, 6, 7), not at its fallback column |
| RoundTrip.BlockRowRead | export_to_excel.py:68-74 | a block's exported row is read under that block's index, with its own name and text and an empty QC |
| RoundTrip.ChoiceRowRead | export_to_excel.py:84-90 | a choice's exported row is read under the key the merge looks that choice up by |
| RoundTrip.BlockZeroRowSkippedAsWritten | import_from_excel.py:96-99 | as written, block 0's exported row is skipped; corrected, it is read under block 0 |
| RoundTrip.ExportedBlockUpdate | import_from_excel.py:109-116 | with unique block indices, each block's update holds its own name and text |
| RoundTrip.ExportedChoiceUpdate | import_from_excel.py:103-108 | with unique block indices, each choice's update holds its own text |
| RoundTrip.ApplyBlockOwnTexts | import_from_excel.py:128-163 | a block given its own texts back is unchanged |
| RoundTrip.ExportImportIdentity | import_from_excel.py:122-165 | exporting a record set and importing the unedited sheet leaves it unchanged and counts 0 (with the corrected key test; see Findings) |
| RoundTrip.ExportedSheetResolves | import_from_excel.py:37-42 | an exported sheet is merged back into the file it came from, whatever its truncated name (with the corrected resolution; see Findings) |
| RoundTrip.ReimportChangesNothing | import_from_excel.py:33-81 | re-importing an unedited export changes no file (with the corrected key test and resolution; see Findings) |

## Left out

- The HTTP request itself is not modelled: headers, the API key, the system prompt, `max_tokens`, `min_p`, `top_p`, `top_k` and the timeout. A POST is one scripted outcome, and the log keeps the model, the temperature and the user message.
- Every exception `call_llm` catches is one failed outcome. That covers connection errors, error statuses and malformed bodies.
- Sleeps, progress printing, timing and the debug flags `_debug_shown` and `_actual_model_shown` are not modelled. They change no data.
- File I/O is not modelled: JSON loading and saving, `makedirs`, workbook loading and saving. The import's and export's loops over files and sheets are left out too. A record set is the loaded block list, and `translate_json_file` is modelled from the loaded data on.
- `translate_folder` and its thread pool are not part of this model. Concurrency is not modelled.
- Configuration loading is not modelled. The settings the core reads are inputs. The defaults the source applies when a key is missing (`batch_size` 10 or 25, `retry_on_japanese` true, and the others) are assumed to be resolved already.
- The `retry_attempts` setting is a natural number. A negative setting, which the source would treat as "no retry", is not modelled.
- Runs.BatchedRun: the batched driver requires `batch_size > 0`. With 0 the source divides by zero. With a negative size, translate.py:336 gives no batch, or one batch when there is a single item. That batch's slice `all_items[0:batch_size]` is empty. So the source sends no POST, writes nothing and returns 0.
- Runs.SecondPass: the `except` around `translate_batch` in the second pass (translate.py:437-443) is not modelled. `translate_batch` catches every request error itself, so nothing in the modelled behaviour raises there.
- BatchCodec.MatchNumbered: `\d` and `\s` are taken as ASCII digits and Python's white space. Non-ASCII Unicode digits are not modelled.
- The sequential driver translates a name of white space only, while the batched driver skips it. Both are modelled as written.
- The split of several methods into step, round and turn methods is a proof device. So are the "Last"/"Step" function pairs, such as `ApplyAll`/`ApplyAllLast`. Each source method is the top-level method of the row that cites it.
- The service's replies script is a list fixed in advance. A service whose answer depends on the request is not modelled.
- Pipeline.TranslationPipeline.TranslateJsonFile: the count of cleared fields that `_clean_monologue_names` returns is computed and ignored, as in the source. The log is described by its length, not by its rendered text, except in `CallLlm`, `TranslateText` and `TranslateBatch`, which state every request. The batched driver's methods also state the model and temperature of each entry, and the sequential driver's methods do not.
- The export's cell styling and column widths are not modelled.
- Sheet cells hold strings, integers or nothing. Float, date and formula cells are not modelled. `int()`'s acceptance of `_` separators and non-ASCII digits is not modelled either.
- Import.FieldText: a numeric cell in the name, text, QC or FilePath column is read as its digits. The source raises on `.strip()` or on `+ '.json'` for such a cell.
- The worksheet is modelled as a header row and a list of data rows. `max_row` and `max_column` become the lengths of those lists.
- Import.ApplyAll: a block without a `blockIdx` key is not modelled. Block indices are integers.
- Import.Resolve: the model always resolves a sheet against the output folder. The source does so only until the first sheet is saved. import_from_excel.py:74 rebinds `output_path`, the base of `relative_to` at line 50, to the saved file's path. A later sheet with no FilePath cell whose guessed path is missing then makes `relative_to` raise `ValueError` on the first listed file, and the whole import stops. The sheet loop that carries this variable is not modelled.
- Import.Resolve: files are identified by their relative path without extension, as a string. `with_suffix`, `rglob` ordering and `relative_to` are not modelled. The listing order is an input.
- RoundTrip.ExportImportIdentity: the round trip is stated for the standard column configuration (`blockIdx`, `jpName`, `enName`, `jpText`, `enText`, `QC`). It needs unique block indices and target texts without surrounding blanks, since the import strips what it reads.
- An empty string read back from the workbook as `None` is covered. `FieldText` maps both to the empty string.

## Findings

| source | as written | input that shows it | evidently intended | confidence | as-written member | corrected member |
|---|---|---|---|---|---|---|
| import_from_excel.py:98 | `if not block_idx_cell: continue` skips every falsy cell, including the integer 0 | a QC sheet whose row for block 0 holds the number 0 in the blockIdx column, as the export writes it; a QC edit on that row is never imported | skip only empty cells, so the row of block 0 is read | not executed | Import.RowKeyAsWritten, Import.RowKeyAsWrittenDiffers, RoundTrip.BlockZeroRowSkippedAsWritten | Import.RowKey |
| import_from_excel.py:57-74 | when a truncated sheet name is matched to a file, that file is read, but the result is written to the path guessed from the sheet name | a sheet "x_y" for the file "x_y" with no FilePath cell: the guess "x/y" does not exist, the fallback reads "x_y", and the merge is written to a new file "x/y" | write the merged record set back to the matched file | not executed | Import.ResolveAsWritten, Import.ResolveWritesElsewhere | Import.Resolve |
