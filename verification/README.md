# AI Cultural Mediator — a verified model of the translation pipeline

This project is a Dafny model of the AI Cultural Mediator's core: the live
speech-to-translation pipeline and its supporting pieces.

- **Speech in.** A browser audio worklet cuts microphone samples into frames
  of 4096 samples. On the backend, a streaming recogniser keeps the 300 most
  recent audio chunks and, about once a second, transcribes everything
  buffered. It hands each non-blank segment to the connected client's
  callback.
- **Per-utterance pipeline.** For every final, non-blank transcript the
  backend:
  1. asks the language model whether the text holds slang, an idiom or a
     cultural reference;
  2. if so, searches the web and builds a cultural insight (an explanation,
     up to three cited sources, and the top two results as raw context);
  3. translates the text into Traditional Chinese, with that context when
     there is one;
  4. emits the transcript, then the translation, then the insight, to the
     client's Socket.IO room.
- **Supporting pieces.** The model manager's load state machine and its
  `MOCKED_LLM_RESPONSE` sentinel, the idiom router, the search client's
  result mapping, the HTTP text-test and health endpoints, the frontend
  store's reducers, and the training-data filters.

The language model, the speech recogniser, the web search service and the
model loader are collaborators. Each is an abstract function given as a
parameter: `Lora.Generator`, `StreamingAsr.Recognizer`,
`Exa.SearchService`, and the `Lora.LoadOutcome` values. Identifiers,
timestamps and the measured latency are parameters too (`Events.RunValues`),
and time is integer milliseconds.

Each source file is one module:

| module | source file |
|---|---|
| `Lora` | backend/src/agents/lora.py |
| `Router` | backend/src/agents/router.py |
| `Exa` | backend/src/services/exa.py |
| `Insight` | backend/src/services/insight.py |
| `Translator` | backend/src/services/translator.py |
| `StreamingAsr` | backend/src/audio/streaming_asr.py |
| `Events` | backend/src/api/events.py |
| `Api` | backend/src/main.py |
| `TrainingData` | backend/prepare_training_data.py |
| `AppStore` | frontend/src/store/useAppStore.ts |
| `AudioWorklet` | frontend/public/audio-processor.js |

`Text` holds the Python string operations the backend uses, `Seqs` holds
sequence flattening, and `Wrappers` holds `Option`, `Result` and Python
truthiness.

Where the source changes state in place, the model does too:
- `StreamingAsr.StreamingASREngine`, `Lora.LoRAManager` and
  `AudioWorklet.AudioProcessor` are classes whose methods update fields;
- the worklet's sample buffer is an `array`;
- the training-data loops and the segment loop are `while` loops with
  invariants;
- `Events.ProcessTranscript` appends to the log of a `SocketServer` object.

Pure code (insight assembly, translation, routing, search mapping, the store
reducers) is modelled as functions.

### Behaviour of the code worth knowing

- **Single-flight latch.** `is_processing` is checked only inside the
  scheduled task (backend/src/audio/streaming_asr.py:103), not when the task
  is scheduled (94-96). A pass contains no `await`, so once started it runs
  to completion, and the latch always returns to the value it had.
- **Buffer not drained.** A transcription pass does not clear the audio
  buffer (backend/src/audio/streaming_asr.py:110-116). Each pass transcribes
  all recent audio again, up to 300 chunks.
- **Insight phrase.** The emitted `phrase` is the whole transcript, not the
  detected idiom: `process` stores the text as `source_text`
  (backend/src/services/insight.py:89), and that is what is sent as the
  phrase (backend/src/api/events.py:85).
- **Target language unused.** `translate` looks up the target language's
  name (backend/src/services/translator.py:43), but neither prompt uses it.

### Behaviour the proofs bring out

- **Unreachable `except` branches.** `generate` never raises: it catches
  library errors and returns the sentinel. So the `except` branches of
  `_should_search`, `process`, `_generate_explanation`, `translate` and
  `process_transcript` cannot be reached.
  - `Insight.FallbackExplanation` models the fallback text on its own.
  - Everywhere else the model takes the non-raising path.
- **Shadowed idioms.** Two router entries can never be reported, because an
  entry listed earlier always matches first:
  - "it's raining cats and dogs" contains "raining cats and dogs";
  - "feeling under the weather" contains "under the weather".
- **Validation window.** `create_validation_data` starts its window at
  `len - num_samples - 100`, using Python's negative indexing.
  - Its `break` never fires, because no visited index reaches the dataset
    length.
  - With a positive `num_samples`, it raises `IndexError` exactly when
    `2 * len(dataset) < num_samples + 100`.
- **Partial samples dropped.** An audio chunk whose byte length is not a
  multiple of four makes `np.frombuffer` raise. The error is logged and the
  chunk is dropped.
- **Test endpoint errors.** In `test_text` the only step that can raise is
  the lookup of connected clients for a log line. Its message becomes the
  HTTP 500 detail.

## Model

| member | source | states |
|---|---|---|
| Lora.LoRAManager.constructor | backend/src/agents/lora.py:8-14 | starts with no model, no tokenizer, not loading and no load error, for the given model path |
| Lora.LoRAManager.LoadModel | backend/src/agents/lora.py:20-52 | readiness (`IsModelReady`, `is_model_ready`) means both model and tokenizer are loaded; loading always ends with `is_loading` false; an adapter load that succeeds installs its model and tokenizer; if it raises, the base load's model and tokenizer are installed; if both raise, no model or tokenizer remains and the base load's error message is kept; the manager is ready exactly when one of the two loads succeeded |
| Lora.LoRAManager.LoadAdapter | backend/src/agents/lora.py:54-60 | registering an adapter changes no state |
| Lora.LoRAManager.Generate | backend/src/agents/lora.py:62-88 | the sentinel whenever the model or tokenizer is missing or the library raises; any other reply means the manager is ready and it is exactly the library's output |
| Router.FirstMatch | backend/src/agents/router.py:50-51 | the index of the first listed phrase that is a substring of the text, or -1 exactly when none is |
| Router.Analyze | backend/src/agents/router.py:43-60 | no result exactly when no listed idiom occurs in the lower-cased text; otherwise detected, of type "idiom", with the first listed idiom that occurs as its phrase |
| Router.AnalyzeIgnoresCase | backend/src/agents/router.py:47 | changing the case of the input's ASCII letters (upper- or lower-casing them) does not change the result |
| Router.LongerEntriesListedOnce | backend/src/agents/router.py:25-26 | the two longer idioms appear only at positions 4 and 6 of the list |
| Router.MatchNoLaterThan | backend/src/agents/router.py:50-51 | if the text contains a string that holds entry `i`, the first match comes at or before `i` |
| Router.RainShadowed | backend/src/agents/router.py:25 | "it's raining cats and dogs" is never the first match, since entry 3 lies inside it |
| Router.WeatherShadowed | backend/src/agents/router.py:26 | "feeling under the weather" is never the first match, since entry 5 lies inside it |
| Router.ShadowedPhrasesNeverReported | backend/src/agents/router.py:23-60 | `analyze` never reports either of the two shadowed idioms |
| Exa.NewClient | backend/src/services/exa.py:8-10 | a service handle exists exactly when the API key is truthy |
| Exa.ToRecord | backend/src/services/exa.py:37-41 | each dict has exactly url, title and snippet; the url is copied; a missing title becomes "Source"; the snippet is a prefix of the text of at most 200 characters (all of it when shorter), and "" without text |
| Exa.SearchContext | backend/src/services/exa.py:12-47 | the two fixed mock results without a key or handle; the empty list when the search raises; otherwise one dict per raw result, same length and order |
| Exa.SearchResultsWellFormed | backend/src/services/exa.py:16-47 | every returned dict, mock or mapped, has exactly url, title and snippet, with a snippet of at most 200 characters |
| Insight.ShouldSearch | backend/src/services/insight.py:39-45 | true exactly when "YES" occurs in the upper-cased model reply; the source's strip before the test cannot change that |
| Insight.NoYesWithoutY | backend/src/services/insight.py:40-42 | a reply without the letter y in either case never counts as a yes |
| Insight.NotReadyNeverSearches | backend/src/services/insight.py:39-45 | while the model is not loaded the sentinel reply makes the detector answer no |
| Insight.Query | backend/src/services/insight.py:62 | the query is the text followed by " meaning slang idiom cultural explanation" |
| Insight.GenerateExplanation | backend/src/services/insight.py:108-139 | the prompt's context (`ExplanationContext`, `ExplanationBlock`) numbers the top three results from 1, with the title defaulting to "Unknown" and the snippet cut to 500 characters; the explanation has no surrounding whitespace, and is the sentinel while the model is not loaded |
| Insight.MockedResponseIsStripped | backend/src/services/insight.py:136 | stripping the sentinel leaves it unchanged |
| Insight.FallbackExplanation | backend/src/services/insight.py:141-145 | the fallback starts with the text and " 的文化背景："; it is only that with no results; it adds at most two 100-character snippets and a space |
| Insight.ContextBlock | backend/src/services/insight.py:83 | every context block starts with "Source: " |
| Insight.SearchContextOf | backend/src/services/insight.py:82-85 | empty for no results, the first block for one result, the first two blocks joined by a blank line otherwise |
| Insight.Citation | backend/src/services/insight.py:93-97 | a citation has exactly url, title and snippet; url and title default to ""; the snippet is a prefix of at most 200 characters of the result's snippet or text |
| Insight.Process | backend/src/services/insight.py:51-106 | no insight when the detector says no; otherwise an insight exactly when the search returns something; it has the given id, the whole text as source text, type "slang", relevance 0.9, the generated explanation, citations of the first three results in order, and the top-two search context (the record itself is built by `InsightOf`) |
| Insight.NotReadyNoInsight | backend/src/services/insight.py:57-59 | without a loaded model no insight is ever produced |
| Insight.TranslationContext | backend/src/api/events.py:51-60 | the translator receives a truthy context exactly when an insight with a non-empty search context exists, and then that context |
| Insight.InsightCarriesContext | backend/src/services/insight.py:82-100 | every insight produced has a non-empty search context, so it always leads to a translation with context |
| Translator.LanguageName | backend/src/services/translator.py:34-43 | a known code maps to its name and an unknown code to itself |
| Translator.LanguageNameIsIdentityOnlyOnUnknown | backend/src/services/translator.py:43 | the lookup returns the code unchanged exactly for codes not in the map |
| Translator.PromptFor | backend/src/services/translator.py:46-71 | the context-bearing prompt is used exactly when the context is truthy, and it carries that context and the text |
| Translator.ReplyLine | backend/src/services/translator.py:79-83 | the kept line has no newline and no surrounding whitespace, is a substring of the reply, and is the whole stripped reply when the reply has one line |
| Translator.Translate | backend/src/services/translator.py:14-94 | the text itself when the model is not ready or the reply line is empty or the sentinel; otherwise that line; any result other than the text is a non-empty, non-sentinel single line taken from the model's reply |
| Text.Strip | backend/src/services/translator.py:79 | Python's `strip()`: no longer than the input, no whitespace at either end, and empty exactly for a blank input |
| Text.StripIsPaddedSlice | backend/src/services/translator.py:79 | the stripped string is a slice of the input with only whitespace cut from each end |
| Text.StripIdempotent | backend/src/services/translator.py:83 | stripping twice is stripping once |
| Text.FirstLine | backend/src/services/translator.py:82-83 | the first element of `split('\n')`: a prefix with no newline, followed by a newline when shorter than the input |
| StreamingAsr.Pushed | backend/src/audio/streaming_asr.py:87-88 | the appended chunk goes last, after the 299 most recent chunks already held, so a buffer of at most 300 chunks stays within 300 and a full one drops exactly its oldest chunk |
| StreamingAsr.Recent | backend/src/audio/streaming_asr.py:24 | the last 300 (or fewer) elements of a history |
| StreamingAsr.PushedKeepsRecent | backend/src/audio/streaming_asr.py:87-88 | appending to the buffer keeps it equal to the 300 most recent chunks: a full buffer drops exactly the oldest chunk and keeps the rest in order |
| StreamingAsr.FlattenWholeSamples | backend/src/audio/streaming_asr.py:84 | concatenating whole-sample chunks gives whole float32 samples, so the sample count is exact |
| StreamingAsr.PushedKeepsShape | backend/src/audio/streaming_asr.py:87-88 | after an append the buffer still holds at most 300 whole-sample chunks and ends with the new chunk |
| StreamingAsr.DeliveredComesFromSegment | backend/src/audio/streaming_asr.py:144-153 | every delivered text is the non-empty stripped text of some segment |
| StreamingAsr.SegmentIsDelivered | backend/src/audio/streaming_asr.py:144-153 | every segment whose stripped text is non-empty is delivered |
| StreamingAsr.DeliverableIsStrippedSegments | backend/src/audio/streaming_asr.py:144-160 | `Deliverable`, the per-segment strip-and-skip loop, delivers in order; a text is delivered exactly when it is the non-empty stripped text of a segment, and delivered texts have no surrounding whitespace |
| StreamingAsr.DeliverableNoLonger | backend/src/audio/streaming_asr.py:144-153 | a pass delivers at most one text per segment |
| StreamingAsr.BlankSegmentsDeliverNothing | backend/src/audio/streaming_asr.py:144-158 | nothing is delivered exactly when every segment is blank |
| StreamingAsr.StreamingASREngine.constructor | backend/src/audio/streaming_asr.py:17-40 | a fresh engine has an empty buffer, no callback, the latch down, last processing time 0, and a model exactly when the eager load succeeded |
| StreamingAsr.StreamingASREngine.SetCallback | backend/src/audio/streaming_asr.py:60-62 | only the callback changes |
| StreamingAsr.StreamingASREngine.ClearBuffer | backend/src/audio/streaming_asr.py:65-69 | only the buffer changes, and it becomes empty |
| StreamingAsr.StreamingASREngine.Reset | backend/src/audio/streaming_asr.py:170-176 | the buffer is emptied and the latch dropped; the callback, the model and the last processing time are kept |
| StreamingAsr.StreamingASREngine.ProcessAudio | backend/src/audio/streaming_asr.py:71-99 | without a model, or for a chunk that is not whole float32 samples, nothing changes and nothing is scheduled; otherwise the chunk is appended to the bounded buffer, and a pass is scheduled exactly when at least 1000 ms have passed since the last one, which moves the last processing time to now; the latch is never touched |
| StreamingAsr.StreamingASREngine.ProcessBuffer | backend/src/audio/streaming_asr.py:101-168 | nothing is delivered while a pass runs, without a model, with fewer than 8000 samples buffered or without a callback; otherwise exactly the deliverable segment texts, in order; the buffer is not drained and the latch is released, so the engine is unchanged |
| Events.Outcome | backend/src/api/events.py:67-94 | after a translatable transcript come one or two events: the translation, then the insight exactly when there is one |
| Events.RunEmissions | backend/src/api/events.py:13-97 | with `Translatable` the guard `is_final and text.strip()`: every event goes to the client's room; first the transcript with its text, finality and confidence 0.9; a translation (id = transcript id, "zh-TW") exactly when the transcript is final and not blank; a third event, the insight, exactly when it is also produced |
| Events.InsightEmittedAfterContextualTranslation | backend/src/api/events.py:45-91 | whenever an insight is emitted, the translation before it was made with that insight's non-empty search context, and its phrase is the transcript |
| Events.NotReadyEchoesTranscript | backend/src/api/events.py:42-94 | without a loaded model a translatable transcript is echoed as its own translation and no insight is emitted |
| Events.InsightAndTranslation | backend/src/api/events.py:45-60 | computes the insight, then the translation, with the insight's context exactly when it has a non-empty one |
| Events.SocketServer.Emit | backend/src/api/events.py:28-38 | an emission is appended to the server's log |
| Events.EmitOutcome | backend/src/api/events.py:67-94 | appends the translation, then the insight when there is one |
| Events.ProcessTranscript | backend/src/api/events.py:13-97 | appends to the server's log exactly the run's emissions, in order |
| Events.Connect | backend/src/api/events.py:104-128 | the engine's buffer is emptied and the callback for this session installed; nothing else changes |
| Events.Disconnect | backend/src/api/events.py:131-134 | the engine is reset; its callback is kept |
| Events.AudioChunk | backend/src/api/events.py:137-157 | an empty payload is ignored and changes nothing; any other is passed to the engine with the effects of `process_audio`: without a model or for a chunk of partial samples nothing changes; otherwise the chunk is appended to the bounded buffer, a pass is scheduled exactly when 1000 ms have passed since the last one, and the last processing time moves to now exactly then; the model flag, the callback and the latch are always kept |
| Events.TranscriptionPass | backend/src/api/events.py:112-121 | each text a pass delivers becomes, in order, a final-transcript job for the session whose callback is registered; no callback means no jobs |
| Api.TestText | backend/src/main.py:48-104 | an HTTP 500 carrying the message exactly when the one raising step raises; otherwise the response echoes the text and "zh-TW", carries the pipeline's translation, and carries an insight exactly when one was produced, with its phrase, explanation, type and sources |
| Api.HealthCheck | backend/src/main.py:153-162 | status "ok", `model_loaded` exactly when model and tokenizer are loaded, and the manager's loading flag, model path and load error |
| Api.HealthPredictsGeneration | backend/src/main.py:158 | while health reports the model as not loaded every generation is the sentinel; while it reports it loaded, every generation that does not raise is the model's output |
| AppStore.SetStatus | frontend/src/store/useAppStore.ts:49 | only the status changes |
| AppStore.FindChunk | frontend/src/store/useAppStore.ts:53 | the first index with that id, or -1 exactly when no chunk has it |
| AppStore.AddTranscriptChunk | frontend/src/store/useAppStore.ts:51-60 | a chunk with a known id replaces the first chunk with that id at the same index, length and other chunks unchanged; a new id is appended at the end |
| AppStore.AddTranscriptChunkKeepsIdsUnique | frontend/src/store/useAppStore.ts:51-60 | unique chunk ids stay unique, and the added chunk is present afterwards |
| AppStore.UpdateTranslation | frontend/src/store/useAppStore.ts:62-66 | the entry for the chunk id is set and every other entry is kept |
| AppStore.FindInsight | frontend/src/store/useAppStore.ts:70-72 | with `InsightKey` the lower-cased phrase, or source text when the phrase is empty: the first insight whose lower-cased phrase (or source text) matches, or -1 exactly when none does |
| AppStore.MoveToFront | frontend/src/store/useAppStore.ts:76-78 | the chosen element first, the others in their old relative order |
| AppStore.MoveToFrontIsPermutation | frontend/src/store/useAppStore.ts:76-78 | moving to the front only reorders |
| AppStore.AddInsight | frontend/src/store/useAppStore.ts:68-83 | a case-insensitive match moves the stored insight to the front and drops the new one, a permutation of the old list; a new phrase is put in front |
| AppStore.MoveToFrontKeepsDistinct | frontend/src/store/useAppStore.ts:76-78 | moving to the front keeps the elements distinct |
| AppStore.Keys | frontend/src/store/useAppStore.ts:71 | the dedup key of every stored insight, in order |
| AppStore.AddInsightKeepsKeysUnique | frontend/src/store/useAppStore.ts:68-83 | if no two stored insights share a key, none do after adding one |
| AppStore.ClearTranscript | frontend/src/store/useAppStore.ts:85 | transcript and translations are emptied; insights and status are kept |
| AppStore.Reset | frontend/src/store/useAppStore.ts:87-92 | every field returns to its initial value, whatever the state was |
| AppStore.ResetIdempotent | frontend/src/store/useAppStore.ts:87-92 | resetting twice is resetting once, and clearing a reset store changes nothing |
| AudioWorklet.FillStep | frontend/public/audio-processor.js:17-23 | each sample advances the fill level by one, and a full buffer starts a new frame at level 0 |
| AudioWorklet.AudioProcessor.constructor | frontend/public/audio-processor.js:2-7 | a 4096-sample buffer, fill level 0, nothing posted |
| AudioWorklet.AudioProcessor.Process | frontend/public/audio-processor.js:9-27 | always returns true and keeps the fill level below 4096; every posted frame has 4096 samples; the posted frames followed by the buffered samples are exactly the samples received, in order; no input or no channel changes nothing; otherwise floor((level + n) / 4096) frames are posted and the level becomes (level + n) mod 4096 |
| AudioWorklet.AudioProcessor.Take | frontend/public/audio-processor.js:17-23 | the sample is stored; a full buffer is posted as one frame and the level restarts at 0 |
| TrainingData.FilterOnStripped | backend/prepare_training_data.py:73-85 | `Keeps` is the pair of length filters and `Kept` applies them to the stripped texts; `Contribution` and `ItemsOf` are what one row writes to each file; the length checks on the stripped texts pass exactly when the pair is kept; a kept pair yields "{en} => {zh}" and a validation item, others nothing |
| TrainingData.CollectPrefix | backend/prepare_training_data.py:67-88 | lines accepted from fewer rows are a prefix of lines accepted from more |
| TrainingData.PrepareTrainingData | backend/prepare_training_data.py:58-93 | with `Accepted` (`Collect` over the rows' contributions) what the uncapped loop would write: the lines written are the first min(max(0, cap), available) of what the whole dataset yields under the filter: at most the cap, in dataset order, with rejected rows not counted |
| TrainingData.TrainingRow | backend/prepare_training_data.py:73-88 | one row writes its line when kept and nothing otherwise |
| TrainingData.AcceptedStep | backend/prepare_training_data.py:67-88 | one more row adds exactly that row's contribution |
| TrainingData.CappedPrefix | backend/prepare_training_data.py:68-69 | stopping at the end or at the cap leaves the capped prefix of the whole output |
| TrainingData.AcceptedRows | backend/prepare_training_data.py:67-88 | every written line is "{en} => {zh}" of a kept row, lines follow dataset order, and every kept row contributes its line |
| TrainingData.Resolve | backend/prepare_training_data.py:109 | Python's list indexing: a negative index counts from the end, and an index out of range raises `IndexError` |
| TrainingData.ScanStep | backend/prepare_training_data.py:105-121 | visiting one more index that resolves adds that row's items |
| TrainingData.ScanStops | backend/prepare_training_data.py:105-109 | once an index error happens, later indices change nothing |
| TrainingData.ScanFailsIff | backend/prepare_training_data.py:104-109 | a non-empty window ending within the dataset fails exactly when its first index is below -len |
| TrainingData.ScanRows | backend/prepare_training_data.py:105-121 | every item comes from a resolved index of the window, in window order |
| TrainingData.ValidationRow | backend/prepare_training_data.py:110-121 | one resolved row writes its item when kept and nothing otherwise |
| TrainingData.CreateValidationData | backend/prepare_training_data.py:95-127 | with `Validation` the `Scan` of the window's rows through `ItemsOf`: the items are those of the window start .. start + n - 1 with start = len - n - 100, up to the first index Python cannot resolve; the break at line 106 provably never fires |
| TrainingData.ValidationRows | backend/prepare_training_data.py:104-121 | every validation item comes from a kept row of the window; its completion is the stripped Chinese text and its prompt embeds the stripped English text; items follow window order |
| TrainingData.ItemsOfSingle | backend/prepare_training_data.py:113-121 | a row that yields an item is kept, and the item is that row's own |
| TrainingData.ValidationFailsIff | backend/prepare_training_data.py:104-109 | with a positive sample count the pass raises `IndexError` exactly when 2 * len(dataset) < n + 100 |

## Left out

- Model inference, the speech recogniser, web search and model loading are
  foreign calls. The model takes them as abstract functions or given
  outcomes. Prompt wording is a `Lora.Prompt` value, not the template text.
- The `adapter` argument of `generate` and the `adapters` dict: neither
  affects any result.
- Concurrency: the background load thread, `asyncio.create_task`, event-loop
  scheduling and the buffer lock. Each operation is modelled as one
  sequential step.
  - A scheduled pass is a separate call (`ProcessBuffer` or
    `Events.TranscriptionPass`).
  - A delivered text becomes an `Events.Job` for `process_transcript`,
    rather than being run by the event loop.
  - `LoadModel` runs as one step, so `isLoading` is false in every state
    another operation can observe. The health check's `model_loading` is
    therefore always false in the model, whereas in the source it is true
    while the background load runs.
- Clocks and identifiers: `time.time()`, `datetime.now()`, latency and uuid4
  are parameters. Time is integer milliseconds, so the 1.0 s interval is
  1000.
- Floating point: audio samples are bytes on the backend and `real` values
  in the worklet. Float32 rounding does not arise, because samples are only
  copied.
- Socket.IO transport, FastAPI wiring, logging, and writing JSON lines to
  files. Emits are appends to a log, and the training outputs are sequences.
  The `/api/transcribe` upload endpoint and `__main__` signal handling are
  not part of this model.
- Dataset download in backend/prepare_training_data.py, and its `main`.
- Text.Lower: case mapping (`lower`, `upper`, `toLowerCase`) covers ASCII
  letters only, not the full Unicode case tables.
- Router.AnalyzeIgnoresCase: holds for ASCII case changes only. Under
  Python's Unicode case mapping it fails for characters such as `ſ` and
  `ı`: `"ſalty".upper().lower()` is `"salty"`, so upper-casing "ſalty"
  makes `analyze` detect "salty" where it found nothing before.
- AppStore.UpdateTranslation: the JavaScript `Map`'s insertion order is not
  modelled, only its entries.
- Exa.ToRecord: a raw result whose `title` or `text` attribute is present
  but `None` is not distinguished from a missing one.
- StreamingAsr.StreamingASREngine.ProcessBuffer: an exception raised by the
  callback is not modelled. In the source it is caught per segment and
  later segments are still delivered.
- Insight.GenerateExplanation: the fallback branch is unreachable because
  `generate` never raises. The fallback text is modelled on its own as
  `Insight.FallbackExplanation`.
- StreamingAsr.StreamingASREngine.ProcessAudio: the `except` branch is
  modelled only for chunks that are not whole float32 samples. No other
  step of `process_audio` raises.
- Frontend UI components, browser audio APIs, other hooks,
  backend/src/audio/asr.py, the Whisper wrappers, the training launchers
  and backend/src/config.py are not part of this model.
