# Streaming transcription sessions and the travel advisor, in Dafny

This project models two parts of the repository.

**Speech-to-text streaming** (`speech2text/server`):

- The shared Whisper model cache (`WhisperService`). It accepts five model names, loads lazily, reuses cached models and can be cleared.
- The decoding options the cache passes to the model.
- The per-connection streaming session (`WebSocketHandler`). Its state and its handlers cover `config`, `audio_chunk` and `stop`.
- The trigger rule: a pass runs after the first chunk and after every third.
- How chunk files are named, and how chunks are decoded and concatenated, skipping later chunks that fail to decode.
- The transcription pass and how it suppresses a repeated transcript.
- Cleanup.
- The connection's life: registration in the registry, message dispatch, passes that finish in any order, and teardown.

**Travel advisor** (`advisor`):

- The prompt and the requirements list that `MaestroService.get_travel_advice` sends.
- `parse_advice`, which splits the service's answer into sections.
- The pure logic of the browser script `main.js`:
  - the two submit guards;
  - the search history, which de-duplicates by id;
  - section ordering and display names;
  - paragraph formatting.

Calls into code outside the repository that the streaming side depends on are parameters of the model. These are base64 decoding, audio decoding, WAV export, `whisper.load_model` and `model.transcribe`. The AI service's answer is an input of `parse_advice`; the service call itself is not modelled. The filesystem is a map from (directory, name) to bytes plus a set of directories.

Files:

| file | module | contents |
|---|---|---|
| `wrappers.dfy` | `Wrappers` | `Option`, `Result`, truthiness of optional strings |
| `text.dfy` | `Text` | Python's/JavaScript's split and join, strip/trim with each language's whitespace set, ASCII lower-casing, substring search, replace-all, decimal rendering |
| `files.dfy` | `Files` | the filesystem operations the session uses |
| `whisper_cache.dfy` | `WhisperCache` | `WhisperService` |
| `chunks.dfy` | `Chunks` | trigger rule, chunk file names, decoding and concatenation |
| `session.dfy` | `StreamSession` | the session state and its handlers, the pass, de-duplication, cleanup |
| `connection.dfy` | `Connection` | `WebSocketHandler.handle`: registry, dispatch, passes in flight, teardown, the connection invariant |
| `advice_parser.dfy` | `AdviceParser` | `parse_advice` and a declarative reference for it |
| `travel_prompt.dfy` | `TravelPrompt` | prompt and requirements of `get_travel_advice` |
| `advisor_page.dfy` | `AdvisorPage` | the pure helpers of `main.js` |

Behaviour of the code worth noting:

- The model cache has no lock at all, neither per key nor cache-wide. A load is one atomic step in the model.
- `stop` does not close the connection. The message loop keeps running after it.
- Cleanup deletes the chunk files but keeps the chunk list. A second `stop` therefore runs a pass over deleted files, and that pass reports an error (`StreamSession.SecondStopReportsError`).
- A message that is valid JSON but not an object makes `data.get` raise inside the inner `try` (`speech2text/server/websocket_service.py:212-214`). That `try` catches only `json.JSONDecodeError` (line 225), so the `AttributeError` escapes to the outer handler. This ends the connection instead of producing an error event.
- Events sent after the connection has ended are lost.

Two consequences of the code that the proofs make explicit:

- In `parse_advice`, text filed under a section never begins with that section's title. So the step that cuts a leading title off is dead code (`AdviceParser.TitleNeverLeads`).
- On the page, the `personalized` section is not in the ordering list. It therefore sorts ahead of every known section and is shown under its raw name (`AdvisorPage.UnknownCategoriesFirst`, `AdvisorPage.DisplayName`).

## Model

| member | source | states |
|---|---|---|
| Files.MakeDirs | speech2text/server/websocket_service.py:57 | the directory exists afterwards and no file changes |
| Files.WriteFile | speech2text/server/websocket_service.py:113-114 | writing succeeds exactly when the directory exists, and then sets exactly that file; otherwise it fails with the `FileNotFoundError` text naming the path |
| Files.RemoveIfExists | speech2text/server/websocket_service.py:186-187 | the file is gone afterwards and every other file is untouched |
| Files.RemoveDir | speech2text/server/websocket_service.py:195 | removing a directory succeeds exactly when it exists and holds no file |
| WhisperCache.LoadModel | speech2text/server/whisper_service.py:34-64 | unknown names are rejected with the listed-names message; a cached name returns the cached model without loading; otherwise the loader's model is cached and returned; a failed load re-raises the loader's own error and leaves the cache unchanged; other entries are never touched; only listed names are ever cached |
| WhisperCache.CachedLoadSkipsLoader | speech2text/server/whisper_service.py:47-64 | for a cached name the result does not depend on the loader at all |
| WhisperCache.LoadTwiceSameModel | speech2text/server/whisper_service.py:47-64 | a second load of a successfully loaded name returns the same model and leaves the cache as the first load left it |
| WhisperCache.NewService | speech2text/server/whisper_service.py:25-32 | construction succeeds exactly when the default model loads on the chosen device, leaving exactly that model cached; otherwise it raises the loader's error |
| WhisperCache.IsModelLoaded | speech2text/server/whisper_service.py:75-85 | for a cache of listed names, a name is reported loaded exactly when loading it succeeds without calling the loader, and only listed names are ever reported loaded |
| WhisperCache.NewServiceLoadsDefault | speech2text/server/whisper_service.py:75-85 | a new service reports the default model as loaded and no other |
| WhisperCache.LoadMarksLoaded | speech2text/server/whisper_service.py:75-85 | after a successful load the name is reported loaded; a failed load changes no name's loaded status |
| WhisperCache.ListAvailableModels | speech2text/server/whisper_service.py:66-73 | five distinct names including the default |
| WhisperCache.ListedNamesAreAccepted | speech2text/server/whisper_service.py:44-45 | a name is listed exactly when a load with a working loader accepts it |
| WhisperCache.ReleaseMemory | speech2text/server/whisper_service.py:164-169 | after a release no model is loaded and the device is kept |
| WhisperCache.ReleaseThenLoadReloads | speech2text/server/whisper_service.py:164-169 | after a release, loading a listed name calls the loader again |
| WhisperCache.OneShotOptions | speech2text/server/whisper_service.py:108-110 | the only option is the language, present exactly when it is truthy |
| WhisperCache.StreamingOptions | speech2text/server/whisper_service.py:147-153 | single precision is off and the beam size is 1; the language is added exactly when it is truthy |
| WhisperCache.StreamingExtendsOneShot | speech2text/server/whisper_service.py:147-153 | the streaming options are the one-shot options plus exactly `fp16` and `beam_size` |
| WhisperCache.RunModel | speech2text/server/whisper_service.py:142-158 | the cache changes as the load changes it; a load error is re-raised, otherwise the model's answer with the given options is returned |
| WhisperCache.Transcribe | speech2text/server/whisper_service.py:103-113 | a failed load gives exactly the load's error; otherwise the result is the loaded model's answer with the one-shot options, success or failure; the cache changes only as the load changes it |
| WhisperCache.TranscribeChunk | speech2text/server/whisper_service.py:142-156 | a failed load gives exactly the load's error; otherwise the result is the loaded model's answer with the streaming options, success or failure; the cache changes only as the load changes it |
| Chunks.TriggerGaps | speech2text/server/websocket_service.py:121 | a stream never goes three chunks without a pass, and after the first chunk consecutive passes are exactly three chunks apart |
| Chunks.TriggerCountClosedForm | speech2text/server/websocket_service.py:121 | over n ≥ 1 chunks exactly 1 + n div 3 passes are triggered |
| Chunks.ChunkNameInjective | speech2text/server/websocket_service.py:110 | different chunk indices give different file names |
| Chunks.ChunkNameNotCombined | speech2text/server/websocket_service.py:135 | no chunk file name is the combined file's name |
| Chunks.ReadSegment | speech2text/server/websocket_service.py:138 | an existing file is decoded; a missing one fails with the `FileNotFoundError` text naming its path |
| Chunks.DecodedAllAppend | speech2text/server/websocket_service.py:141-146 | decoding a list of chunk files distributes over list concatenation |
| Chunks.DecodedAllComplete | speech2text/server/websocket_service.py:141-146 | when every later chunk decodes, every segment is kept, in order |
| Chunks.Combine | speech2text/server/websocket_service.py:137-146 | combining fails exactly when the first chunk fails to decode; otherwise it is the first segment followed by the decodable later ones in order |
| Chunks.CombineSkipsFailed | speech2text/server/websocket_service.py:141-146 | a later chunk that fails to decode makes no difference to the result |
| Chunks.CombineChunks | speech2text/server/websocket_service.py:137-146 | the loop builds exactly the combination above |
| StreamSession.ChunkPathsDistinct | speech2text/server/websocket_service.py:110-118 | the stored chunk paths are pairwise distinct and never the combined file |
| StreamSession.NewSession | speech2text/server/websocket_service.py:42-57 | a fresh session has no chunks, the `base` model, no language, no last transcript and its directory created |
| StreamSession.HandleConfig | speech2text/server/websocket_service.py:82-98 | present keys overwrite the model name and language even when loading then fails; exactly one status or error event reports the load of the recorded name |
| StreamSession.Payload | speech2text/server/websocket_service.py:105-107 | text without a comma is its own payload; otherwise the payload is shorter than the text; a payload never contains a comma |
| StreamSession.FirstField | speech2text/server/websocket_service.py:105-107 | the first comma-split field is the longest comma-free prefix |
| StreamSession.PayloadField | speech2text/server/websocket_service.py:105-107 | the payload is the whole text without a comma, otherwise the comma-free field right after the first comma |
| StreamSession.HandleAudioChunk | speech2text/server/websocket_service.py:100-126 | an accepted chunk is stored as the next numbered file, appended and counted, and a pass is scheduled exactly when the new count triggers; on failure nothing changes and exactly one `Error processing audio chunk: ` event is sent, ending in `'data'` (the `KeyError` text) for a missing field, the decoder's own error for bad base64, or the `FileNotFoundError` text for the chunk's path when the directory is missing; well-formed chunk lists stay well formed |
| StreamSession.Dedup | speech2text/server/websocket_service.py:163-166 | the stripped text is sent and remembered exactly when it is non-empty and differs from the last text sent |
| StreamSession.DedupSuppressesRepeat | speech2text/server/websocket_service.py:163-166 | the same result arriving twice is sent at most once |
| StreamSession.EmitAllNoRepeats | speech2text/server/websocket_service.py:163-166 | over any series of results, sent texts are non-empty, no two consecutive ones are equal, and the remembered text is the last one sent |
| StreamSession.RunPass | speech2text/server/websocket_service.py:128-170 | an empty list does nothing; a first chunk that fails to decode sends exactly `Error transcribing audio: ` plus its error and changes nothing; a missing directory sends that prefix plus the `FileNotFoundError` text for `combined.wav` and changes nothing; otherwise the combined recording is exported to `combined.wav` and transcribed as `Transcribed` states (load error, inference error, or the stripped text sent and remembered exactly when non-empty and new); at most one event is sent; only the last transcript changes in the session, and only when the new text is sent; only the combined file is written; the cache keeps listed names only |
| StreamSession.TranscribeCombined | speech2text/server/websocket_service.py:151-170 | the combined file is run through the session's model with the streaming options: a failed load or inference sends exactly one prefixed error and leaves the session alone; a result is stripped and sent, and remembered, exactly when non-empty and different from the last text sent; the filesystem is untouched |
| StreamSession.PassSkipsFailedChunk | speech2text/server/websocket_service.py:141-146 | a chunk after the first that fails to decode makes no difference to the whole pass: what is written, sent and remembered |
| StreamSession.RemoveAll | speech2text/server/websocket_service.py:185-187 | exactly the listed files are gone and the rest are untouched |
| StreamSession.Cleanup | speech2text/server/websocket_service.py:181-199 | chunk files and the combined file are gone, nothing else is touched, and the directory is removed exactly when it exists and held only those files; cleanup never fails |
| StreamSession.CleanupIdempotent | speech2text/server/websocket_service.py:181-199 | a second cleanup changes nothing |
| StreamSession.HandleStop | speech2text/server/websocket_service.py:172-179 | a final pass runs exactly when there are chunks, then cleanup; the chunk list is kept and no chunk or combined file remains |
| StreamSession.SecondStopReportsError | speech2text/server/websocket_service.py:172-199 | a second `stop` after one with chunks sends exactly `Error transcribing audio: ` plus the `FileNotFoundError` text for the first chunk, and changes nothing else |
| Connection.Send | speech2text/server/websocket_service.py:61-80 | events are appended to what the client received only while the connection is open |
| Connection.Connect | speech2text/server/websocket_service.py:204-208 | the session is registered under its id and greets with `Connected` |
| Connection.EndSession | speech2text/server/websocket_service.py:234-240 | teardown runs cleanup and unregisters the id, leaving other ids registered |
| Connection.Receive | speech2text/server/websocket_service.py:211-226 | unknown types change nothing; invalid JSON sends one error; a non-object ends the connection; a chunk applies the chunk handler's session, files and events and schedules its pass; `config` applies the config handler's session, cache and one event and leaves the files alone; `stop` applies the stop handler's session, files, cache and events; the connection stays registered otherwise |
| Connection.ReceiveChunk | speech2text/server/websocket_service.py:100-126 | the chunk handler's session and files are taken over and its events sent, the cache is untouched, and its scheduled pass joins the set in flight; a stored chunk counts once and adds a pass exactly when the new count triggers |
| Connection.CompletePass | speech2text/server/websocket_service.py:120-122 | a pass in flight runs over a prefix of the chunk list at least as long as when it was scheduled and is removed from the set in flight; files, cache and session become the pass's, and its events are sent only while the connection is open |
| Connection.Disconnect | speech2text/server/websocket_service.py:228-240 | a closed transport ends the loop: the id is unregistered, the files become the session cleanup's, no chunk or combined file remains, nothing more is sent, the cache is kept and the connection invariant still holds |
| Connection.RegistryLifecycle | speech2text/server/websocket_service.py:201-242 | an id is registered while its connection runs and removed when it ends, other ids unaffected |
| Connection.StopThenDisconnect | speech2text/server/websocket_service.py:220-236 | the cleanup after the loop ends changes nothing on disk once `stop` has run |
| Connection.ConnectEstablishesInv | speech2text/server/websocket_service.py:201-208 | a new connection satisfies the connection invariant |
| Connection.ReceivePreservesInv | speech2text/server/websocket_service.py:211-226 | every message keeps the invariant (numbered chunk files, listed cache names, passes in flight over non-empty, growing prefixes of the chunk list, ended means unregistered) |
| Connection.CompletePreservesInv | speech2text/server/websocket_service.py:128-170 | a pass completing keeps the invariant |
| Connection.RunPreservesInv | speech2text/server/websocket_service.py:201-242 | any interleaving of messages, pass completions and a close keeps the invariant |
| Connection.FeedChunksSchedules | speech2text/server/websocket_service.py:116-122 | n stored chunks after c earlier ones schedule exactly as many passes as counts in c+1..c+n that trigger |
| Connection.StoredChunkSchedules | speech2text/server/websocket_service.py:113-122 | a chunk whose payload decodes counts once, keeps the directory and adds a pass exactly when the new count triggers |
| Connection.FreshFeedSchedules | speech2text/server/websocket_service.py:118-122 | on a fresh connection n ≥ 1 stored chunks schedule exactly 1 + n div 3 passes |
| AdviceParser.Marker | advisor/services.py:85-92 | every section title is non-empty and has no line break |
| AdviceParser.OrderRanks | advisor/services.py:85-92 | the titles are tried in one fixed order that lists each category once |
| AdviceParser.HeaderOf | advisor/services.py:103-109 | a block announces a section only if it contains that section's title, ignoring case |
| AdviceParser.HeaderOfFirstWins | advisor/services.py:105-109 | a block mentioning several titles announces the first in order |
| AdviceParser.HeaderOfNone | advisor/services.py:105-109 | a block announces no section exactly when it mentions no title |
| AdviceParser.StartFull | advisor/services.py:72-79 | every category starts with empty text |
| AdviceParser.StripAll | advisor/services.py:98-99 | every block is the stripped piece at the same position |
| AdviceParser.Step | advisor/services.py:99-119 | a header block makes its section current and files nothing; any other block leaves the current section; text is only ever appended, and only to the current section |
| AdviceParser.Accumulate | advisor/services.py:98-119 | after the loop the current section is the one announced by the last header block |
| AdviceParser.StepContent | advisor/services.py:115-119 | a block is appended to a section, after a blank line when the section has text, exactly when it is non-empty, announces nothing and that section is current |
| AdviceParser.AccumulateMatchesReference | advisor/services.py:94-119 | the loop's current section is the last one announced, and each category's text is exactly its filed blocks joined by blank lines |
| AdviceParser.NoHeaderNoContent | advisor/services.py:112-119 | blocks before the first header are filed nowhere |
| AdviceParser.TitleNotAtStart | advisor/services.py:131 | a title-free block followed by a line break does not start with a title |
| AdviceParser.TitleNeverLeads | advisor/services.py:129-132 | filed text never starts with its section's title, so the title-removal step never fires |
| AdviceParser.Finish | advisor/services.py:122-132 | empty text becomes non-empty except for personalized; text not starting with its title is kept; non-empty text never grows |
| AdviceParser.Cleanup | advisor/services.py:121-136 | every category is kept except an empty personalized one; each value is its cleaned text; when nothing was filed every kept value is its placeholder |
| AdviceParser.FinishMatchesReference | advisor/services.py:121-132 | the cleanup gives the filed blocks joined by blank lines, or the placeholder when nothing was filed |
| AdviceParser.CleanupMatchesReference | advisor/services.py:121-136 | after cleanup the five fixed categories are present, personalized is present exactly when something was filed under it, and each value is its reference text |
| AdviceParser.ParseAdvice | advisor/services.py:68-138 | the five fixed keys are always present; personalized is present exactly when it has content; each value is its filed blocks joined by blank lines, or the placeholder |
| AdviceParser.ParseWithoutTitles | advisor/services.py:121-136 | a response naming no section gives the five placeholders and no personalized entry |
| TravelPrompt.BuildPrompt | advisor/services.py:20-27 | a truthy follow-up question is the whole prompt; otherwise the guide request for the destination, extended by the hobbies clause exactly when hobbies are truthy |
| TravelPrompt.PromptMentionsHobbies | advisor/services.py:23-24 | without a follow-up, given hobbies appear in the prompt after the interest clause |
| TravelPrompt.RequirementFor | advisor/services.py:30-58 | each requirement carries its section's name and opens by naming its section title |
| TravelPrompt.BuildRequirements | advisor/services.py:30-58 | the five fixed requirements in order, plus the personalized one exactly when hobbies are truthy and there is no follow-up |
| TravelPrompt.RequirementsNameTitles | advisor/services.py:30-58 | requirement i opens with the title the parser tries at position i |
| TravelPrompt.RequirementNameInjective | advisor/services.py:30-58 | different sections have different requirement names |
| TravelPrompt.RequirementNamesDistinct | advisor/services.py:30-58 | no two requirements share a name |
| TravelPrompt.PersonalizedQuotesHobbies | advisor/services.py:54-58 | the personalized instruction contains the hobbies |
| AdvisorPage.SearchGuard | advisor/static/advisor/js/main.js:39-45 | a search is issued exactly when city and country are not whitespace-only, with all three fields trimmed |
| AdvisorPage.SearchGuardStable | advisor/static/advisor/js/main.js:39-45 | submitting the trimmed values again issues the same search |
| AdvisorPage.FollowUpGuard | advisor/static/advisor/js/main.js:104-111 | a question is sent exactly when it is not whitespace-only and the destination id is non-empty; the field is cleared exactly then |
| AdvisorPage.AddToSearchHistory | advisor/static/advisor/js/main.js:188-199 | the destination is appended exactly when no entry has its id, else the history is unchanged |
| AdvisorPage.AddKeepsIdsUnique | advisor/static/advisor/js/main.js:188-199 | adding keeps ids distinct |
| AdvisorPage.AddIdempotent | advisor/static/advisor/js/main.js:188-199 | adding any destination with an id already added changes nothing |
| AdvisorPage.BuildHistory | advisor/static/advisor/js/main.js:175 | a history built by successive searches has distinct ids and contains every searched id |
| AdvisorPage.CategoryIndex | advisor/static/advisor/js/main.js:343-345 | the position in the ordering list, or -1 exactly for categories not in it |
| AdvisorPage.Insert | advisor/static/advisor/js/main.js:344-346 | insertion adds exactly the one entry |
| AdvisorPage.SortAdvice | advisor/static/advisor/js/main.js:344-346 | the sorted advice is a permutation of the input |
| AdvisorPage.SortAdviceCorrect | advisor/static/advisor/js/main.js:343-346 | the sort is ordered by position, a permutation, and stable: entries with the same position keep their input order |
| AdvisorPage.UnknownCategoriesFirst | advisor/static/advisor/js/main.js:343-346 | entries of categories outside the list, such as personalized, come before every listed one |
| AdvisorPage.DisplayName | advisor/static/advisor/js/main.js:334-340 | each of the five listed categories gets the heading at its own position in the heading list (`Safety Information`, `Weather and Climate`, `Cultural Guide`, `Transportation`, `Attractions and Activities`), different from its key; every other category is shown under its own name |
| AdvisorPage.DisplayNamesDistinct | advisor/static/advisor/js/main.js:334-340 | the five listed categories get five different headings |
| AdvisorPage.Paragraph | advisor/static/advisor/js/main.js:391 | a formatted paragraph contains no line break |
| AdvisorPage.ParagraphLines | advisor/static/advisor/js/main.js:391 | a piece of newline-free lines becomes one `<p>` element with the same lines separated by `<br>` |
| AdvisorPage.Paragraphs | advisor/static/advisor/js/main.js:390-391 | each piece becomes its paragraph, in order |
| AdvisorPage.FormatContent | advisor/static/advisor/js/main.js:386-393 | falsy content gives the empty string and only then is the result empty; the result has no line break and is the concatenated paragraphs of the blank-line-separated pieces |
| AdvisorPage.FormatParagraphs | advisor/static/advisor/js/main.js:390-392 | paragraphs without line breaks, joined by blank lines, format to exactly one `<p>` element each, in order |
| AdvisorPage.DisplayResults | advisor/static/advisor/js/main.js:321-363 | missing data, missing advice or an empty advice list shows the error; otherwise one section per entry in sorted order, titled by display name, with formatted content |
| AdvisorPage.DisplayShowsEveryEntry | advisor/static/advisor/js/main.js:344-363 | every advice entry is rendered as a section |
| Text.SplitJoin | advisor/services.py:95 | splitting on a separator and joining back gives the original text |
| Text.JoinSplit | advisor/static/advisor/js/main.js:390 | joining separator-free parts and splitting again gives the parts back |
| Text.Trim | advisor/static/advisor/js/main.js:39-41 | the trimmed text is one slice of the input with only whitespace before and after it, starts and ends with non-whitespace, and is empty exactly when the input is whitespace-only |
| Text.ReplaceAllJoin | advisor/static/advisor/js/main.js:391 | replacing the one-character separator of a join of parts without it gives the join with the replacement as separator |

## Left out

- Concurrency is not modelled in the asyncio event loop, the executor thread or the unsynchronised model cache. Each handler, each load and each pass is one atomic step. Passes and messages may interleave in any order.
- Connection.CompletePass: a pass reads its chunk list when its task starts and its model name and language when inference runs. The model merges both into one step, so interleavings between a pass's start and its end are not modelled. One example: a `stop` that deletes the files between the export of `combined.wav` and the inference.
- The foreign calls are opaque parameters and are not modelled: base64 decoding, `AudioSegment` decoding, WAV export, `whisper.load_model`, `model.transcribe` and the AI service call (`create_and_poll`).
- WhisperCache.Transcribe: only the `text` entry of the result dictionary is modelled. The `processing_time` entry and the other fields are not.
- WhisperCache.DeviceFor: whether CUDA is available is an input. `torch` is not modelled.
- WhisperCache.ReleaseMemory: garbage collection and the CUDA cache flush are not modelled.
- Files.NotFound: the error text is CPython's on POSIX systems, `[Errno 2] No such file or directory: '<dir>/<name>'`. Other platforms word it differently; that is not modelled.
- Logging, timing, `uuid4` and `mkdtemp` are not modelled. The session id and the scratch directory are inputs.
- Connection.Receive: `model` and `data` are an absent key or a string; `language` is an absent key, JSON null or a string. JSON null in `model` or `data` is not modelled, and neither is a non-string value in any of the three.
- Wire messages are abstract events, not JSON encodings.
- AdviceParser.HeaderOf: lower-casing and the whitespace sets cover ASCII letters and the listed whitespace characters only. Unicode case folding is not modelled.
- AdviceParser.LowerMarker: the lower-case titles are written out, not derived by lower-casing the titles in a proof.
- AdviceParser.ParseAdvice: the input is a string. `str()` of another response object is not modelled.
- AdvisorPage.DisplayName: keys inherited from JavaScript's object prototype (such as `constructor`) are not modelled.
- AdvisorPage.FormatContent: the content is a string or absent. Other JavaScript values are not modelled.
- AdvisorPage.DisplayResults: the page is a structured view, not HTML markup. The heading and sections are kept. The follow-up form's markup and the collapsible-section behaviour are not modelled.
- The browser script's DOM updates, `fetch` calls, the fact rotation timer, the sidebar and the history sidebar's markup are not modelled.
- The asynchronous flows `searchDestination`, `submitFollowUpQuestion`, `getOrCreateDestination` and `generateAdvice` are not modelled. They only chain network calls and call the modelled helpers.
- The Django views, serializers and models are not part of this model, nor are `app.py`, `cursor_integration.py` and `run.py`.
- `websocket_server` and `start_websocket_server` are not modelled. They only start the server.
