# cactus core, modelled in Dafny

cactus is an on-device language-model SDK. Its core is one inference object,
`cactus_context`, whose methods do the following:

- load a model;
- rewind the per-request state;
- tokenize, truncate and load a text prompt;
- generate tokens one step at a time, with prompt ingestion in batches, a token
  budget, EOS handling and the context shift;
- append each token's text and check for an unfinished UTF-8 character;
- search for stop words;
- manage LoRA adapters;
- run the text-to-speech front-end and its code-generation loop.

A C binding layer (`cactus_ffi.cpp`) checks arguments, maps outcomes to return
codes, and streams tokens to a callback that can interrupt the run.

This project models that bookkeeping. Every engine call is a parameter: tokenizer,
decoder, sampler, token-to-piece and adapter initialisation. Each method is proved
against a specification function, and that function's properties are proved as
lemmas.

| file | module | models |
|---|---|---|
| utils.dfy | `Utils` | `common_part`, `ends_with`, `find_partial_stop_string`, the byte-format rule, `tokens_to_str`, `llama_batch_add`/`llama_batch_clear` on a class over arrays |
| kvcache.dfy | `KvCache` | the `kv_cache_types` table and `kv_cache_type_from_str` |
| completion.dfy | `Completion` | generation as functions of the state: truncation arithmetic, the `n_keep` clamp, prompt ingestion, sample/decode/append, the context shift, the UTF-8 check, `doCompletion`'s emission step, the stop-word search |
| context.dfy | `Cactus` | class `Context` (the fields of `cactus_context`) with `rewind`, `initSampling`, the destructor, `loadModel`, `truncatePrompt`, `loadPrompt`, `beginCompletion`, `nextToken`, `findStoppingStrings`, `doCompletion` and the LoRA methods, each proved against the `Completion` functions |
| tts_text.dfy | `TtsText` | `convert_less_than_thousand`, `number_to_words` (with `std::stoll`), the tail of `process_input_text`, `get_speaker_audio_text`, `prepare_guide_tokens` |
| tts_audio.dfy | `TtsAudio` | the `save_wav16` header fields and byte layout, the code-generation loop and the audio-code filter of `synthesizeSpeech` |
| ffi.dfy | `Ffi` | `c_str_array_to_vector`, `cactus_completion_c` with its streaming loop, `cactus_stop_completion_c`, `cactus_free_completion_result_members_c`, and the guard clauses of `cactus_detokenize_c` and `cactus_embedding_c` |

Integer widths are written out where the source relies on them:

- `n_remain` is a `size_t`, so `ToSize` reduces modulo 2^64 and −1 becomes 2^64 − 1.
- Two conversions to `int` wrap to 32 bits through `ToInt32`. One is the `size_t` erased-block count stored in an `int` during truncation (cactus/cactus_completion.cpp:25). The other is `(int)num_prompt_tokens` in the n_keep clamp (cactus/cactus_completion.cpp:157).
- Two other casts are modelled on the unbounded length: `(int)prompt_tokens.size()` in `KeepCount` (cactus/cactus_completion.cpp:29) and `(int)embd.size()` in `ChunkSize` (cactus/cactus_completion.cpp:230). They are exact because the token count stays below 2^31: the tokenizer reports it as an `int`. `LoadPrompt` and `CanLoad` require it (see "## Left out").
- The WAV header fields are reduced modulo 2^32 and 2^16.
- Negating the smallest `long long` gives back the same value.

Strings are byte strings. Each `char` stands for one byte of a `std::string`, and
`ByteValue` (utils.dfy) reads a char modulo 256. No encoding or Unicode processing is
modelled; the UTF-8 check of `doCompletion` looks at those byte values.

The assertion in `loadPrompt` becomes a precondition. It says that the truncated
prompt is shorter than `n_ctx`, and it can fail only when `n_ctx` is 1 and the prompt
is non-empty.

The assertion `n_past == embd.size()` in `nextToken` (cactus/cactus_completion.cpp:344) is
not a precondition. It sits on the context-shift path, and it fails when `n_batch <= 0`
leaves prompt tokens unevaluated (the ingestion loop then breaks at once, lines 235-238) and
a generated token fills the context. The model records that outcome in a field `aborted`
of the generation state, which the source does not have: the process stops there, so the step
ends, generation stops, and `cactus_completion_c` reports no return code (`None`).
`NextTokenAborts` shows such an input. `DoCompletionNoAbort` and `RunLoaded` prove that a
positive `n_batch` never reaches the assertion.

The streaming loop of `cactus_completion_c` may never end: with `n_predict == -1`
there is no budget, and the UTF-8 re-arm keeps adding steps. The model therefore
runs at most `fuel` steps, and the contract says what happens when the fuel runs out.

Three facts about the code that a reader might expect otherwise:

- A matched stop sequence neither ends a request nor is trimmed. The streaming loop of `cactus_completion_c` (cactus/cactus_ffi.cpp:226-245) never calls `findStoppingStrings`: the stop words are copied into `antiprompt`, but the C entry point neither checks nor trims them.
- `n_predict == 0` is not a limit stop. `nextToken` (cactus/cactus_completion.cpp:273-278) returns EOS for it without setting `stopped_limit` (`NextTokenLimit`).
- A result can carry more than one stop reason. The code keeps independent flags: `stopped_eos`, `stopped_word` and `stopped_limit`, plus the interrupt flag.

## Model

| member | source | states |
|---|---|---|
| `Utils.CommonPart` | cactus/cactus_utils.cpp:98-106 | the count is at most both lengths; the sequences agree on that prefix; when neither ends there, they differ at the count |
| `Utils.CommonPrefixLengthUnique` | cactus/cactus_utils.cpp:98-106 | those three properties determine the count: two counts that both have them are equal |
| `Utils.CommonPrefixLengthSelfAndEmpty` | cactus/cactus_utils.cpp:100-105 | `common_part(a, a)` is \|a\|, and `common_part(a, [])` is 0 (in both directions) |
| `Utils.EndsWithIffConcat` | cactus/cactus_utils.cpp:116-120 | `ends_with(s, t)` holds iff s is some string followed by t |
| `Utils.FindFrom` | cactus/cactus_completion.cpp:401 | `std::string::find` from a start: a hit is at or after the start, the word occurs at the hit and at no earlier index; no hit means the word does not occur from the start on |
| `Utils.PartialFrom` | cactus/cactus_utils.cpp:139-151 | the backward loop: a hit is where the longest prefix tried that ends the text begins; no longer prefix tried ends the text; no hit means none of them does |
| `Utils.FindPartialStopString` | cactus/cactus_utils.cpp:132-154 | npos when the text or the stop word is empty; a hit p has `text[p..]` as a non-empty prefix of stop, and no longer prefix of stop ends the text; npos means no non-empty prefix of stop ends the text |
| `Utils.FullStopIsPartialMatch` | cactus/cactus_utils.cpp:139-149 | when the stop word ends the text, the result is \|text\| − \|stop\| |
| `Utils.FormatPieceHighByte` | cactus/cactus_utils.cpp:171-181 | a one-byte piece with the high bit set becomes `byte: \x` followed by two lowercase hex digits whose value is the byte |
| `Utils.FormatPieceOther` | cactus/cactus_utils.cpp:167-182 | every other piece comes back unchanged |
| `Utils.TokensToStr` | cactus/cactus_utils.cpp:194-204 | with a context, the pieces of the tokens concatenated in order; without one, `<null_ctx>` |
| `Utils.PiecesAppend` | cactus/cactus_utils.cpp:199-202 | the text of a concatenation is the texts of the parts, concatenated |
| `Utils.BatchAdd` | cactus/cactus_utils.cpp:74-88 | token, position, sequence-id count, sequence ids and logits flag are written at the old `n_tokens` slot; `n_tokens` grows by exactly one; every other slot and array is unchanged; a null batch is left alone |
| `Utils.BatchClear` | cactus/cactus_utils.cpp:59-63 | only `n_tokens` changes, to 0; a null batch is left alone |
| `Utils.Batch.Init` | cactus/cactus_tts.cpp:678 | `llama_batch_init(capacity, 0, n_seq_max)`: an empty batch of `capacity` fresh slots, each with room for `n_seq_max` sequence ids |
| `KvCache.FirstNamed` | cactus/cactus_loader.cpp:82-88 | a result is a table entry whose name is s; no result (the `runtime_error`) exactly when no entry has that name |
| `KvCache.TypeNameInjective` | cactus/cactus_loader.cpp:84 | no two types share a name in the fixed table of `lm_ggml_type_name`, so a name picks out one type |
| `KvCache.FirstNamedIsFirst` | cactus/cactus_loader.cpp:83-87 | the result is the first entry in table order with that name |
| `KvCache.LookupOfNameRoundTrip` | cactus/cactus_loader.cpp:69-87 | looking up the name of any supported type gives back that type |
| `KvCache.KvCacheTypeFromStr` | cactus/cactus_loader.cpp:82-89 | the loop's result is the `FirstNamed` lookup over `kv_cache_types` |
| `KvCache.FindNamed` | cactus/cactus_loader.cpp:83-88 | the loop over any table gives that table's `FirstNamed` |
| `KvCache.KnownNames` | cactus-tests/test_core_api.cpp:274-279 | "f16" maps to F16 and "f32" to F32 |
| `KvCache.UnknownName` | cactus-tests/test_core_api.cpp:281-291 | "invalid_type" is rejected |
| `KvCache.UnsupportedName` | cactus/cactus_loader.cpp:69-88 | a type the tensor library knows (q4_K) but the table lacks is rejected |
| `Completion.KeepCount` | cactus/cactus_completion.cpp:28-29 | `keep_count` is at most the prompt length, and equals `n_keep` when `n_keep` already lies in [0, \|prompt\|] |
| `Completion.TruncatedPrompt` | cactus/cactus_completion.cpp:18-49 | the result is the first `keep_count` tokens followed by a suffix of the prompt |
| `Completion.TruncationFits` | cactus/cactus_completion.cpp:156-166 | with \|prompt\| ≥ n_ctx ≥ 2 and 0 ≤ n_keep ≤ max(n_ctx−4, 0), the truncated prompt is shorter than n_ctx, keeps the first n_keep tokens, and keeps at least one block (≥ 1) of recent tokens |
| `Completion.TruncationSingleSlot` | cactus/cactus_completion.cpp:162-165 | with n_ctx = 1 the truncation keeps the whole prompt, which is why the length assertion fails for any non-empty prompt |
| `Completion.ClampKeep` | cactus/cactus_completion.cpp:156-160 | the result lies in [0, max(n_ctx−4, 0)]; an n_keep already in range is kept; a negative one becomes min(\|prompt\|, max(n_ctx−4, 0)) |
| `Completion.LoadedTokensFit` | cactus/cactus_completion.cpp:162-175 | the loaded tokens are shorter than a positive n_ctx; a prompt shorter than n_ctx, or an n_ctx of 0, is loaded unchanged |
| `Completion.Ingest` | cactus/cactus_completion.cpp:229-252 | n_past only grows, up to \|embd\|; a clean run ends at \|embd\|; an interrupt with prompt left fails |
| `Completion.IngestAll` | cactus/cactus_completion.cpp:229-252 | with every decode succeeding and no interrupt, the whole of embd is ingested |
| `Completion.IngestStep` | cactus/cactus_completion.cpp:226-256 | n_past grows to at most \|embd\|; with a positive n_batch it reaches exactly \|embd\| on success; with n_batch ≤ 0 the loop leaves at once, n_past stays and the step goes on to generate |
| `Completion.Shift` | cactus/cactus_completion.cpp:346-358 | with n_discard half of what lies past the first n_keep+1 tokens (0 if nothing does), exactly n_discard tokens go from index n_keep+1; the head and the tail keep their order; the last token stays; nothing changes when n_discard is 0 |
| `Completion.Discard` | cactus/cactus_completion.cpp:355 | erasing d tokens after the first n_keep+1 keeps that head, then the tokens from n_keep+1+d on; the length drops by d; the last token stays |
| `Completion.DiscardPositive` | cactus/cactus_completion.cpp:347-348 | once embd holds two tokens past the kept region plus one, at least one token is discarded |
| `Completion.ShiftIfFull` | cactus/cactus_completion.cpp:330-362 | an embd below n_ctx is left alone; the shift only shrinks embd and keeps its last token; an embd that had at most n_ctx+1 tokens ends within n_ctx when n_ctx > n_keep+1 |
| `Completion.ShiftWindow` | cactus/cactus_completion.cpp:330-358 | with n_keep+1 < n_ctx ≤ \|embd\| ≤ n_ctx+1 the shift drops at least one token, so embd ends within n_ctx |
| `Completion.AfterDecode` | cactus/cactus_completion.cpp:320-371 | the end of a step keeps the token, the budget, the text and the probabilities, and n_past ≤ \|embd\|; as many tokens stay unevaluated as before; a new stop at the assertion needs unevaluated tokens |
| `Completion.Resume` | cactus/cactus_completion.cpp:346-370 | after the shift of a full embd (n_past dropping with it), `has_next_token` is exactly: no interrupt, and n_predict = −1 or n_remain > 0; only embd, n_past and `has_next_token` change; the unevaluated part is kept |
| `Completion.AfterDecodeContinues` | cactus/cactus_completion.cpp:320-370 | continuing implies budget left (or unlimited), a token that is not EOS, no interrupt, and embd ending in the token |
| `Completion.AfterDecodeHasNext` | cactus/cactus_completion.cpp:320-370 | `has_next_token` after a step holds iff the token is not EOS, there is no interrupt, a full embd can be shifted (n_ctx > n_keep+1 and n_past = \|embd\|), and n_predict = −1 or n_remain > 0 |
| `Completion.AfterDecodeAbort` | cactus/cactus_completion.cpp:330-344 | the assertion stops the step iff the token is not EOS, embd reached n_ctx, n_ctx > n_keep+1 and n_past < \|embd\| (or an earlier step stopped there); such a stop ends generation and leaves embd and n_past alone |
| `Completion.AfterDecodeWindow` | cactus/cactus_completion.cpp:330-362 | continuing keeps embd within n_ctx when it held at most n_ctx+1 tokens |
| `Completion.AfterDecodeEos` | cactus/cactus_completion.cpp:320-325 | EOS sets `stopped_eos`, clears `has_next_token` and leaves embd and n_past alone |
| `Completion.AfterDecodeCount` | cactus/cactus_completion.cpp:309-371 | the end of a step leaves `num_tokens_predicted` alone |
| `Completion.Sample` | cactus/cactus_completion.cpp:290-307 | sampling counts exactly one more predicted token and leaves text and probabilities alone |
| `Completion.Decode` | cactus/cactus_completion.cpp:303-318 | decoding keeps the invariant n_past ≤ \|embd\| and the prediction count |
| `Completion.DecodeContinues` | cactus/cactus_completion.cpp:303-370 | a decoded token that lets generation go on satisfies `Continues` |
| `Completion.DecodeEos` | cactus/cactus_completion.cpp:309-325 | a decoded EOS is appended, advances n_past by one, sets `stopped_eos` and stops |
| `Completion.SampleContinues` | cactus/cactus_completion.cpp:290-370 | a sampled token that lets generation go on satisfies `Continues` |
| `Completion.SampleEos` | cactus/cactus_completion.cpp:290-325 | a sampled EOS that decodes is appended, sets `stopped_eos` and stops |
| `Completion.Generate` | cactus/cactus_completion.cpp:260-318 | the generation half keeps the invariant, the text and the probabilities |
| `Completion.GenerateContinues` | cactus/cactus_completion.cpp:260-370 | whatever branch is taken, continuing satisfies `Continues` |
| `Completion.Append` | cactus/cactus_completion.cpp:309-318 | the token is appended to embd and n_past grows by one, so the unevaluated part is kept; a finite, positive budget pays one unit |
| `Completion.NextTokenSpec` | cactus/cactus_completion.cpp:218-372 | one step keeps n_past ≤ \|embd\| and n_remain a size_t, and leaves text and probabilities alone; it stops at the assertion only with n_batch ≤ 0 and prompt tokens left unevaluated |
| `Completion.NextTokenContinues` | cactus/cactus_completion.cpp:226-370 | after a step that lets generation go on, the token is not EOS and ends embd, there is budget left (or none is set), and embd stays within n_ctx; with a positive n_batch all of embd is evaluated, otherwise as many tokens stay unevaluated as before |
| `Completion.NextTokenGoesOn` | cactus/cactus_completion.cpp:226-370 | the converse: when ingestion succeeds, the vocabulary is there, budget is left, nobody interrupted, the sampled token is not EOS and decodes, and a full context can be shifted, the step returns the sampled token, counts it, takes one unit of a finite budget, and `has_next_token` is exactly n_predict = −1 or n_remain > 0 |
| `Completion.NextTokenAborts` | cactus/cactus_completion.cpp:229-344 | with n_batch ≤ 0 and prompt left unevaluated, a sampled non-EOS token that fills a context with room beyond n_keep stops the step at the assertion, interrupt or not, with the token appended |
| `Completion.NextTokenBudget` | cactus/cactus_completion.cpp:300-318 | with a finite budget, predicted tokens plus n_remain grows by at most one per step, and stays the same when generation goes on: each token that continues costs one unit of the budget |
| `Completion.SampleBudget` | cactus/cactus_completion.cpp:300-318 | a sampled token costs one unit of a positive budget unless its decode fails |
| `Completion.NextTokenLimit` | cactus/cactus_completion.cpp:273-287 | with n_remain = 0 and a finite n_predict, the step returns EOS without sampling, stops, and sets `stopped_limit` exactly when n_predict ≠ 0 (or it was already set) |
| `Completion.NextTokenFailure` | cactus/cactus_completion.cpp:240-264 | a missing model, or an interrupt while a positive n_batch still has prompt to ingest, returns −1 and stops, with embd and the count unchanged |
| `Completion.NextTokenEos` | cactus/cactus_completion.cpp:320-325 | a sampled EOS that decodes is appended, advances n_past past the ingested prompt by one, sets `stopped_eos` and stops |
| `Completion.Expected` | cactus/cactus_completion.cpp:472-474 | a lead byte announces at most three continuation bytes, and only a byte 11xxxxxx announces any |
| `Completion.LookbackChar` | cactus/cactus_completion.cpp:464-484 | the backward scan from distance `lookback` answers true iff some byte at a distance k in [lookback, 4) is a lead byte announcing more than k continuation bytes and only continuation bytes follow it |
| `Completion.Utf8IncompleteChar` | cactus/cactus_completion.cpp:456-493 | the check reports exactly the texts that end inside a multi-byte character |
| `Completion.Utf8LastByte` | cactus/cactus_completion.cpp:457-491 | an empty text and a final ASCII byte give false; a final 110/1110/11110 lead byte gives true |
| `Completion.Emitted` | cactus/cactus_completion.cpp:444-508 | the emission step keeps n_past, embd, the prediction count, `stopped_eos` and the invariant |
| `Completion.DoCompletionSpec` | cactus/cactus_completion.cpp:434-523 | the step returns `nextToken`'s token; emitting it leaves n_past, embd, the prediction count and `stopped_eos` as `nextToken` left them; a step stopped at the assertion is `nextToken`'s result unchanged |
| `Completion.DoCompletionNoAbort` | cactus/cactus_completion.cpp:229-344 | with a positive n_batch a completion step never stops at the assertion |
| `Completion.DoCompletionText` | cactus/cactus_completion.cpp:444-449 | the generated text only grows: by the piece of the token when there is a context and a token, and not at all without a token or after a stop at the assertion |
| `Completion.DoCompletionUtf8` | cactus/cactus_completion.cpp:456-508 | for an emitted token, `incomplete` holds iff the text ends mid-character; an incomplete text always leaves `has_next_token` set; a stop with no budget left sets `stopped_limit` |
| `Completion.DoCompletionRearm` | cactus/cactus_completion.cpp:495-502 | the re-arm case exactly: when `nextToken` produced a token and stopped generating and the new text ends mid-character, `has_next_token` is set again and a finite budget grows by one (as a size_t); in every other case n_remain is what `nextToken` left |
| `Completion.Earliest` | cactus/cactus_completion.cpp:409-415 | a hit names an index whose word matched at the hit's position |
| `Completion.EarliestIsFirstMinimum` | cactus/cactus_completion.cpp:386-424 | the hit is the smallest position over all words, and the first index that reaches it; there is no hit iff no word matched |
| `Completion.StopSearch` | cactus/cactus_completion.cpp:388-390 | an empty stop word is never the one found |
| `Completion.FullStopFound` | cactus/cactus_completion.cpp:393-401 | a stop word that ends the text is found in full mode, between the search start and its final occurrence |
| `Cactus.Rewound` | cactus/cactus_context.cpp:43-56 | the prediction count, n_remain, n_past, embd, text, probabilities, `incomplete`, `stopped_eos` and `stopped_limit` are reset; `has_next_token` is kept |
| `Cactus.RewoundIdempotent` | cactus/cactus_context.cpp:38-60 | rewinding twice is the same as rewinding once |
| `Cactus.Initialised` | cactus/cactus_lora.cpp:22-27 | an adapter with an empty path is kept as it is; any other gets the handle its path initialises to |
| `Cactus.InitAdapters` | cactus/cactus_lora.cpp:22-33 | no list iff some adapter with a non-empty path fails to initialise; otherwise the list in order, each adapter initialised |
| `Cactus.InitAdaptersReapply` | cactus/cactus_lora.cpp:22-35 | applying an applied list again, with whatever the second call's initialiser returns, is the same as applying the original list with that initialiser: every non-empty path is initialised anew, the first call's handles do not survive, and the result keeps the paths and scales in order |
| `Cactus.FreeListOnce` | cactus/cactus_context.cpp:12-30 | the destructor releases exactly the resources held, none twice, and after it nothing is left to release |
| `Cactus.CheckUtf8` | cactus/cactus_completion.cpp:456-493 | the source's loop computes `Utf8Incomplete` |
| `Cactus.MatchPosition` | cactus/cactus_completion.cpp:392-407 | the position of one word by the source's start rule is `MatchPos` |
| `Cactus.InitEach` | cactus/cactus_lora.cpp:22-33 | the initialisation loop computes `InitAdapters`, stopping at the first failure |
| `Cactus.IngestPrompt` | cactus/cactus_completion.cpp:229-252 | the ingestion loop computes `Ingest` |
| `Cactus.GenerateStep` | cactus/cactus_completion.cpp:260-288 | the generation half of `nextToken` computes `Generate` |
| `Cactus.SampleStep` | cactus/cactus_completion.cpp:290-300 | sampling and counting compute `Sample` |
| `Cactus.DecodeStep` | cactus/cactus_completion.cpp:303-318 | decoding the sampled token computes `Decode` |
| `Cactus.DecodeEnd` | cactus/cactus_completion.cpp:320-371 | EOS, the too-small-context stop, the stop at the assertion, the shift and the interrupt compute `AfterDecode` |
| `Cactus.ResumeStep` | cactus/cactus_completion.cpp:346-370 | the shift of a full embd and the last `has_next_token` update compute `Resume` |
| `Cactus.ShiftEmbd` | cactus/cactus_completion.cpp:346-358 | the erase computes `Shift`, and n_discard is the number of tokens dropped |
| `Cactus.SearchStopWords` | cactus/cactus_completion.cpp:386-424 | the loop over the stop words computes `StopSearch` |
| `Cactus.Context.constructor` | cactus-ios/cactus.xcframework/ios-arm64/cactus.framework/Headers/cactus.h:120-158 | the member defaults: all flags false, counters 0, embd, text, probabilities and lora empty, every engine handle null, nothing released |
| `Cactus.Context.Destroy` | cactus/cactus_context.cpp:12-30 | sampler, projector, vocoder context and vocoder model are each released once, in that order, and nulled; nothing else changes |
| `Cactus.Context.Rewind` | cactus/cactus_context.cpp:38-60 | the generation state becomes `Rewound`; the request flags are cleared; antiprompt and grammar are emptied; model, ctx, lora and n_ctx are untouched |
| `Cactus.Context.InitSampling` | cactus/cactus_context.cpp:68-88 | an existing sampler is released first; success iff there is a model and the sampler is created; without a model no sampler is left |
| `Cactus.Context.LoadModel` | cactus/cactus_loader.cpp:15-48 | false iff no model was loaded; on success templates, n_ctx and (with a projector path) the projector are taken, and a projector that fails to load still returns true |
| `Cactus.Context.TruncatePrompt` | cactus/cactus_completion.cpp:18-50 | the result is `TruncatedPrompt`; `truncated` is set; nothing else changes |
| `Cactus.Context.PromptTokens` | cactus/cactus_completion.cpp:146-166 | n_keep becomes `ClampKeep`; a prompt that reaches n_ctx is truncated and flagged |
| `Cactus.Context.LoadPrompt` | cactus/cactus_completion.cpp:59-197 | embd becomes the loaded tokens, n_past 0, `has_next_token` true; embd is shorter than a positive n_ctx; n_keep is clamped; `num_prompt_tokens` is \|embd\| |
| `Cactus.Context.BeginCompletion` | cactus/cactus_completion.cpp:205-210 | n_remain becomes n_predict as a size_t; `is_predicting` is set; nothing else changes |
| `Cactus.Context.NextToken` | cactus/cactus_completion.cpp:218-372 | the step is `NextTokenSpec`, and the invariant is kept |
| `Cactus.Context.FindStoppingStrings` | cactus/cactus_completion.cpp:383-425 | returns the earliest position or npos; a full hit records the first word reaching it, sets `stopped_word` and clears `has_next_token`; partial mode and a miss change nothing |
| `Cactus.Context.DoCompletion` | cactus/cactus_completion.cpp:434-523 | the step is `DoCompletionSpec`; nothing outside the generation state changes |
| `Cactus.Context.EmitToken` | cactus/cactus_completion.cpp:444-508 | the emission part of `doCompletion` computes `Emitted` |
| `Cactus.Context.ApplyLoraAdapters` | cactus/cactus_lora.cpp:15-40 | 0 iff there are a ctx and a model and every adapter initialises; then lora is the initialised list in order; otherwise −1 and lora unchanged |
| `Cactus.Context.RemoveLoraAdapters` | cactus/cactus_lora.cpp:45-54 | with a ctx, lora becomes empty (so a second call changes nothing); without one, nothing changes |
| `Cactus.Context.GetLoadedLoraAdapters` | cactus/cactus_lora.cpp:62-64 | returns exactly the current lora |
| `TtsText.Separator` | cactus/cactus_tts.cpp:422 | the separator is a nine-or-more character tag starting with `<` |
| `TtsText.JoinCons` | cactus/cactus_tts.cpp:414-423 | joining a word in front of a list puts one separator between them |
| `TtsText.BelowThousandFails` | cactus/cactus_tts.cpp:274-295 | the conversion fails (`ones.at` throws) exactly from 2000 on |
| `TtsText.ConvertLessThanThousand` | cactus/cactus_tts.cpp:274-295 | the appending code computes `BelowThousand`: "" for 0, the ones word below 20, the tens word alone for a zero unit, tens-hyphen-ones otherwise, with "hundred" and a single space before any remainder |
| `TtsText.SpaceRun` | cactus/cactus_tts.cpp:308 | the leading white space `std::stoll` skips is maximal |
| `TtsText.DigitRun` | cactus/cactus_tts.cpp:308 | the digits `std::stoll` reads are maximal |
| `TtsText.PhrasesEmpty` | cactus/cactus_tts.cpp:320-346 | a number has no phrases exactly when it is zero |
| `TtsText.PhrasesDefined` | cactus/cactus_tts.cpp:326-346 | below the scale above, every group is below one thousand and can be spelled |
| `TtsText.SpellFails` | cactus/cactus_tts.cpp:320-346 | the scale blocks fail exactly when the trillions group reaches 2000, that is from 2·10^15 on |
| `TtsText.PhrasesStep` | cactus/cactus_tts.cpp:320-343 | a block that applies spells its group with the scale word, and a single space follows only when a remainder does |
| `TtsText.TracksNext` | cactus/cactus_tts.cpp:320-343 | each scale block keeps the words built so far consistent with the phrases of the whole number |
| `TtsText.BlockDefined` | cactus/cactus_tts.cpp:326-343 | a block below the trillions never fails |
| `TtsText.ScaleBlock` | cactus/cactus_tts.cpp:320-325 | one block succeeds iff its group can be spelled, and then appends `BlockText` and keeps the remainder |
| `TtsText.SpellScales` | cactus/cactus_tts.cpp:314-347 | the scale blocks compute `Spell` |
| `TtsText.UnitsBlock` | cactus/cactus_tts.cpp:344-346 | the units block completes the words |
| `TtsText.LowerBlock` | cactus/cactus_tts.cpp:326-343 | a block below the trillions keeps the words consistent |
| `TtsText.TracksUnits` | cactus/cactus_tts.cpp:344-347 | the words end with the units group, spelled, when it is not zero |
| `TtsText.SpellInteger` | cactus/cactus_tts.cpp:311-348 | the integer branch computes `IntegerWords`: "zero", or "minus " and the words of the negation |
| `TtsText.AppendDigitWords` | cactus/cactus_tts.cpp:354-360 | the decimal loop adds a space and a ones word for each digit and skips anything else |
| `TtsText.NumberToWords` | cactus/cactus_tts.cpp:297-374 | the function computes `NumberWords`, including the two caught exceptions that return the input |
| `TtsText.Stoll` | cactus/cactus_tts.cpp:308 | `std::stoll` in base 10: a value it returns always fits a `long long` |
| `TtsText.StollReads` | cactus/cactus_tts.cpp:308 | white space, an optional sign and a maximal run of digits read as the signed value of the digits, whatever follows; a value beyond a `long long` is out of range (the `out_of_range` caught at lines 366-368) |
| `TtsText.FinishWords` | cactus/cactus_tts.cpp:350-366 | the decimal part and the trailing-space removal compute `Finished` |
| `TtsText.AppendDecimal` | cactus/cactus_tts.cpp:351-361 | " point" and the digit words, when there is a decimal point |
| `TtsText.NumberWordsEmpty` | cactus/cactus_tts.cpp:304-306 | `number_to_words("")` is "" |
| `TtsText.NumberWordsPointFive` | cactus/cactus_tts.cpp:301-361 | ".5" gives "zero point five" |
| `TtsText.NumberWordsSignOnly` | cactus/cactus_tts.cpp:367-373 | "-.5" comes back unchanged, because `std::stoll("-")` throws |
| `TtsText.NumberWordsFortyTwo` | cactus/cactus_tts.cpp:286-290 | "42" gives "forty-two" |
| `TtsText.JoinEndsInLetter` | cactus/cactus_tts.cpp:320-346 | words that end in letters, joined, end in a letter |
| `TtsText.IntegerWordsEndInLetter` | cactus/cactus_tts.cpp:311-347 | the words for any value but the smallest `long long` end in a letter, so the trailing-space removal leaves them alone |
| `TtsText.NumberWordsNoDot` | cactus/cactus_tts.cpp:299-372 | without a decimal point, the whole string is the integer part |
| `TtsText.NumberWordsInteger` | cactus/cactus_tts.cpp:308-373 | an integer numeral other than the smallest `long long` becomes the words for its value when its magnitude is below 2·10^15, and comes back unchanged from there on |
| `TtsText.IntegerWordsFails` | cactus/cactus_tts.cpp:315-346 | the words exist iff the magnitude is below 2·10^15; the smallest `long long`, whose negation wraps, gives "minus " |
| `TtsText.NumberWordsSmallest` | cactus/cactus_tts.cpp:315-365 | the smallest `long long` reads "minus" |
| `TtsText.LowerAndSpecial` | cactus/cactus_tts.cpp:402-407 | lower-casing and replacing special characters keep the length |
| `TtsText.KeepAlpha` | cactus/cactus_tts.cpp:410-411 | only lower-case letters and white space remain |
| `TtsText.WordsAreWords` | cactus/cactus_tts.cpp:414-415 | in a string of letters and white space, the runs between spaces are non-empty lower-case words |
| `TtsText.JoinEnds` | cactus/cactus_tts.cpp:419-423 | joined words start with the first word's first letter and end with the last word's last letter |
| `TtsText.CollapseShape` | cactus/cactus_tts.cpp:414-415 | collapsing gives the words with single spaces, and one trailing space when the string ended in white space |
| `TtsText.TrimEdges` | cactus/cactus_tts.cpp:419 | trimming removes at most one space at either end of single-spaced words |
| `TtsText.ReplaceSpacesAppend` | cactus/cactus_tts.cpp:423 | the separator replacement distributes over concatenation |
| `TtsText.ReplaceSpacesJoin` | cactus/cactus_tts.cpp:423 | replacing the single spaces between words puts the separator between them |
| `TtsText.TrimCollapse` | cactus/cactus_tts.cpp:414-419 | collapsing, then trimming, gives the words joined by single spaces |
| `TtsText.NormaliseTextIsJoin` | cactus/cactus_tts.cpp:402-426 | the normalised text is the words of the filtered text joined by the separator, so no two separators are adjacent |
| `TtsText.NormaliseTextEdges` | cactus/cactus_tts.cpp:414-426 | the normalised text is empty, or starts and ends with a letter: no leading or trailing separator |
| `TtsText.TerminatedJoin` | cactus/cactus_tts.cpp:476-482 | each word followed by a separator is the joined words and one more separator |
| `TtsText.SpeakerAudioText` | cactus/cactus_tts.cpp:468-492 | the function computes `SpeakerText` |
| `TtsText.AppendWords` | cactus/cactus_tts.cpp:475-486 | the loop fails exactly on a malformed item; otherwise it appends each present word and a separator |
| `TtsText.SpeakerFinish` | cactus/cactus_tts.cpp:487-490 | the final separator is there iff some word was appended, and removing it leaves the marker and the joined words |
| `TtsText.SpeakerTextStart` | cactus/cactus_tts.cpp:468-492 | the result always starts with `<\|text_start\|>`, which is all of it without a words list |
| `TtsText.SplitFrom` | cactus/cactus_tts.cpp:566-579 | there is always at least one piece |
| `TtsText.PrepareGuideTokens` | cactus/cactus_tts.cpp:551-587 | the function computes `GuideTokens` |
| `TtsText.GuideWords` | cactus/cactus_tts.cpp:558-585 | the search loop and the last part add the first token of each non-empty piece |
| `TtsText.GuideWord` | cactus/cactus_tts.cpp:566-576 | one turn advances past the delimiter and keeps the pieces accounted for |
| `TtsText.PushFirstToken` | cactus/cactus_tts.cpp:568-573 | a non-empty word contributes its first token, if it has one |
| `TtsText.SplitNext` | cactus/cactus_tts.cpp:566-575 | a delimiter found from the start ends the next piece |
| `TtsText.SplitLast` | cactus/cactus_tts.cpp:578-585 | without a further delimiter, the rest of the string is the last piece |
| `TtsText.SplitJoin` | cactus/cactus_tts.cpp:566-579 | the pieces rejoined with the delimiter are the string again |
| `TtsText.SplitPiecesFree` | cactus/cactus_tts.cpp:566-579 | no piece contains the delimiter |
| `TtsText.FirstTokensBound` | cactus/cactus_tts.cpp:566-585 | at most one guide token per piece |
| `TtsText.GuideTokensBound` | cactus/cactus_tts.cpp:551-587 | there is at most one newline token plus one token per piece, and none without a vocabulary |
| `TtsAudio.Wav16Header` | cactus/cactus_tts.cpp:66-73 | every field fits the width the struct declares |
| `TtsAudio.Wav16HeaderCanonical` | cactus/cactus_tts.cpp:66-73 | when the sizes fit 32 bits: data_size = 2·\|samples\|, chunk_size = 36 + data_size, byte_rate = 2·sample_rate, block_align = 2, mono 16-bit PCM with a 16-byte fmt chunk |
| `TtsAudio.Wav16HeaderWraps` | cactus/cactus_tts.cpp:72-73 | with 2^31 samples data_size wraps to 0, and chunk_size to 36 |
| `TtsAudio.HeaderBytes` | cactus/cactus_tts.cpp:43-57 | the header is 44 bytes, each below 256 |
| `TtsAudio.HeaderRoundTrip` | cactus/cactus_tts.cpp:43-75 | reading back the 44 bytes written gives the header written |
| `TtsAudio.Wav16BytesCanonical` | cactus/cactus_tts.cpp:66-75 | the bytes `save_wav16` writes read back as the canonical header |
| `TtsAudio.MaxCodes` | cactus/cactus_tts.cpp:719 | `n_max_codes` is n_predict when that is positive, otherwise 768 |
| `TtsAudio.GenerateCodes` | cactus/cactus_tts.cpp:739-763 | the loop computes `Generate` |
| `TtsAudio.GenerateFromBound` | cactus/cactus_tts.cpp:739-763 | each step keeps at most one code, and the codes so far stay a prefix |
| `TtsAudio.GenerateFromNoEos` | cactus/cactus_tts.cpp:752-753 | EOS ends the loop and is never kept |
| `TtsAudio.GenerateFromGuide` | cactus/cactus_tts.cpp:742-748 | guide tokens are consumed from the front, at most one per step |
| `TtsAudio.GenerateFromNoGuide` | cactus/cactus_tts.cpp:742-746 | with guide tokens off, the guide is never touched |
| `TtsAudio.GenerateProperties` | cactus/cactus_tts.cpp:719-763 | at most `n_max_codes` codes, none of them EOS; the guide left is a suffix of the guide given; no more guide tokens consumed than steps taken |
| `TtsAudio.GenerateFirstStep` | cactus/cactus_tts.cpp:739-762 | without guide tokens, an EOS first gives no codes, and a failed first decode gives up |
| `TtsAudio.FilterAudioCodes` | cactus/cactus_tts.cpp:772-778 | the filter loop computes `FilterCodes` |
| `TtsAudio.FilterCodesAppend` | cactus/cactus_tts.cpp:773-777 | filtering distributes over concatenation, so order is kept |
| `TtsAudio.FilterCodesSingle` | cactus/cactus_tts.cpp:774-776 | a code is kept, minus 151672, exactly when it lies in [151672, 155772] |
| `TtsAudio.FilterCodesRange` | cactus/cactus_tts.cpp:769-777 | every filtered code lies in [0, 4100] |
| `TtsAudio.FilterCodesMembers` | cactus/cactus_tts.cpp:769-777 | x is a filtered code iff x + 151672 is an in-range code among the generated ones |
| `TtsAudio.FilterCodesLength` | cactus/cactus_tts.cpp:772-778 | the filter never adds codes, and keeps them all when all are in range |
| `Ffi.CStrArrayToVector` | cactus/cactus_ffi.cpp:21-31 | the loop computes `CStrArray` |
| `Ffi.NonNullAppend` | cactus/cactus_ffi.cpp:23-28 | dropping null entries distributes over concatenation, so order is kept |
| `Ffi.NonNullMembers` | cactus/cactus_ffi.cpp:23-28 | a string comes out iff some entry holds it, and no more strings come out than go in |
| `Ffi.NonNullAllPresent` | cactus/cactus_ffi.cpp:23-28 | with no null entry, every string is kept in place |
| `Ffi.CStrArrayBounds` | cactus/cactus_ffi.cpp:21-31 | a null array or a count ≤ 0 gives nothing; otherwise at most `count` strings, each an entry among the first `count` |
| `Ffi.CompletionStep` | cactus/cactus_ffi.cpp:226-227 | the loop's step is `doCompletion` on every state it can run on |
| `Ffi.StreamSendsPieces` | cactus/cactus_ffi.cpp:233-240 | the callback only ever gets pieces of real tokens (never −1), in order, and nothing without a callback |
| `Ffi.StreamEnds` | cactus/cactus_ffi.cpp:226-245 | the loop ends before the fuel runs out only when no token may follow, the run was interrupted, or a step stopped at the assertion |
| `Ffi.StreamInterrupt` | cactus/cactus_ffi.cpp:226-245 | the run ends interrupted iff the callback declined, and the declining call was the last one |
| `Ffi.StreamUnfold` | cactus/cactus_ffi.cpp:226-245 | one turn of the loop: stop after a step stopped at the assertion, after a step with no token and none to follow, or when the callback declines; otherwise go on |
| `Ffi.StreamTokens` | cactus/cactus_ffi.cpp:226-245 | the loop computes `Stream`; only the generation state and the interrupt flag change |
| `Ffi.StreamOnce` | cactus/cactus_ffi.cpp:227-243 | one `doCompletion`, the callback for a real token, and the interrupt when the callback declines |
| `Ffi.StreamStep` | cactus/cactus_ffi.cpp:227 | one `doCompletion` call of the loop |
| `Ffi.CompletionNeverAborts` | cactus/cactus_ffi.cpp:226-227 | with a positive n_batch, the loop's step keeps the invariant and never stops at the assertion |
| `Ffi.StreamNoAbort` | cactus/cactus_ffi.cpp:226-245 | a loop whose step never stops at the assertion ends without such a stop |
| `Ffi.CompletionResultC.constructor` | cactus/cactus_ffi.cpp:181 | a zeroed result struct |
| `Ffi.CompletionResultC.Clear` | cactus/cactus_ffi.cpp:181 | memset leaves every field zero or null |
| `Ffi.CompletionC` | cactus/cactus_ffi.cpp:170-275 | −1 for a null handle, params, prompt or result, touching nothing; −2 iff the sampler cannot be set up; no return code iff the stream stopped at the assertion, which needs n_batch ≤ 0; otherwise −3/−4 iff an exception escapes, leaving the context interrupted, and 0 with the result mirroring the context; `is_predicting` false on 0/−3/−4; the request copied into params, plus the n_keep clamp once the prompt is loaded; the callback facts |
| `Ffi.BeginRequest` | cactus/cactus_ffi.cpp:184-217 | rewind, then the prompt, image, thread count, budget, `n_probs`, stop words and grammar copied into params |
| `Ffi.RunLoaded` | cactus/cactus_ffi.cpp:223-245 | `beginCompletion`, `loadPrompt` and the streaming loop: n_keep clamped, the callback facts, interruption iff the callback declined, the fuel bound, and a stop at the assertion only with n_batch ≤ 0 |
| `Ffi.FillResult` | cactus/cactus_ffi.cpp:248-256 | text, counts, flags and stopping word copied from the context into the result |
| `Ffi.StopCompletionC` | cactus/cactus_ffi.cpp:284-289 | sets `is_interrupted` and nothing else; a null handle is ignored |
| `Ffi.FreeCompletionResultMembersC` | cactus/cactus_ffi.cpp:462-469 | text and stopping word become null and the other fields stay, so a second call frees nothing; a null result is ignored |
| `Ffi.DetokenizeC` | cactus/cactus_ffi.cpp:341-353 | "" for a null handle or tokens, a count ≤ 0, or no engine context; otherwise the pieces of the first `count` tokens |
| `Ffi.EmbeddingC` | cactus/cactus_ffi.cpp:375-414 | {null, 0} for a null handle or text, no engine context, or embedding mode off, leaving the context alone; otherwise the prompt becomes the text, n_predict 0 and `is_predicting` false, and the embedding is returned when the model is there, the sampler is created and the embedding is non-empty, else {null, 0} |

## Left out

- Engine calls are parameters of the model (`Engine`, `TtsEngine`, `init`, `created`). Each `ApplyLoraAdapters` call takes its own `init`, because `llama_adapter_lora_init` makes a new adapter, or fails, every time it is called. These are tokenisation, `llama_decode`, sampling, `common_token_to_piece`, `llama_adapter_lora_init`, sampler creation. The KV-cache calls of the shift and `common_sampler_accept` have no effect on the modelled state and are dropped.
- KvCache.TypeName: `lm_ggml_type_name` belongs to the tensor library, which is not part of this model. The model assumes its names are the fixed table in `TypeName`: the library's lower-case type names, such as "f16", "q8_0" and "iq4_nl". The lookup is proved against that table, not against the library.
- Utils.Batch.Init: `llama_batch_init` belongs to the engine. The model assumes it allocates `capacity` slots of each array with `n_seq_max` sequence ids per slot, and sets `n_tokens` to 0. The contents of the fresh arrays are not modelled.
- Cactus.Context.constructor: `int n_ctx;` has no initialiser in the struct (cactus.h:149, under cactus-ios/cactus.xcframework/ios-arm64/cactus.framework/Headers), so its value before `loadModel` is indeterminate. The model's 0 is an assumption. The default `common_params` are not modelled: the constructor takes the parameters as an argument.
- The generation state's `aborted` field has no counterpart in the source. It records that the assertion at cactus/cactus_completion.cpp:344 failed, which ends the process. The model continues no further than the end of that step: `doCompletion` emits nothing, the streaming loop stops, and `CompletionC` returns `None`.
- Sampling probabilities are left out: `generated_token_probs` records the token only. Of the sampler settings copied by `cactus_completion_c`, only `n_probs` is modelled, because it decides whether a token is recorded (cactus/cactus_ffi.cpp:213). The others are not modelled.
- LoadPrompt, CanLoad, LoadedTokensFit: require fewer than 2^31 prompt tokens. The tokenizer returns the count as an `int`, so a longer prompt cannot be tokenised; without the bound, the `(int)` casts of `prompt_tokens.size()` and `embd.size()` would wrap. They also require n_ctx ≥ 0. The source compares the count with `(size_t) n_ctx` (cactus/cactus_completion.cpp:161), and `loadModel` sets n_ctx from `llama_n_ctx` (cactus/cactus_loader.cpp:27), which returns an unsigned value, so a negative n_ctx does not arise.
- The multimodal branch of `loadPrompt` (cactus/cactus_completion.cpp:70-141) is left out. `LoadPrompt`, `CompletionC` and `EmbeddingC` require that no image is paired with a loaded projector.
- The chat templates (cactus/cactus_chat.cpp), benchmarking (cactus/cactus_bench.cpp) and the embedding computation (cactus/cactus_embedding.cpp) are not part of this model. `EmbeddingC` takes the embedding as a parameter.
- Exceptions are not modelled as control flow. `CompletionC` takes a `thrown` parameter and turns it into −3/−4 after the streaming loop; an exception raised part-way through the loop is not modelled. The exception handlers of `cactus_detokenize_c` and `cactus_embedding_c` are not modelled.
- CompletionC: the streaming loop runs at most `fuel` steps. The contract says it ended early only if no token may follow or the run was interrupted; a run that never ends is not expressed.
- CompletionC: the callback is modelled as a function of every text passed so far, which covers a stateful C callback. The raw function pointer and the C string it gets are not modelled.
- A concurrent `cactus_stop_completion_c` from another thread is not modelled. The interrupt flag is a sequential, cooperative flag that the loop reads between steps.
- `safe_strdup` and `malloc` failure (a null string or a zero count) are not modelled, and neither is freeing the strings. A present string is `Some`.
- `cactus_tokenize_c` and the `cactus_free_*` functions other than `cactus_free_completion_result_members_c` are left out: they are ownership plumbing around engine calls.
- `loadVocoderModel`, the vocoder half of `synthesizeSpeech` and the checks at its start, the floating-point DSP (`fill_hann_window`, `irfft`, `fold`, `embeddings_to_audio_samples` with its threads), the float-to-PCM clamp, the WAV file write, the speaker JSON loading, `get_speaker_audio_data`'s `setprecision(2)` formatting and `determine_tts_version` are left out: they are I/O, floating point or library loading.
- The `std::regex` number scanner of `replace_numbers_with_words` (cactus/cactus_tts.cpp:376-389) is left out. `NumberToWords` models what it does to each match; `NormaliseText` models the later regex replacements as hand-written character filters.
- HeaderBytes: assumes the little-endian layout that `file.write` of the struct has on the platforms the SDK targets.
- Logging (including the debug print in `cactus_detokenize_c`) is left out.
- BatchAdd: requires a free slot and room for the sequence ids. `llama_batch_add` does not check the capacity set by `llama_batch_init`, and writing past it is undefined behaviour.
