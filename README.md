# Translator core, modelled in Dafny

This project models the core of the Translator app (a macOS/iOS front end
for a locally run Japanese–English translation model). The core has two
parts.

- **The model cache and lifecycle**:
  - the file-system helpers (`FileManagerExtension.swift`);
  - the download continuation (`URLSessionDownloadTaskExtension.swift`);
  - `CachedModel`, which tracks one model file on disk and at most one
    download;
  - `Model`, which refreshes the cache and loads the file into an inference
    engine.
- **The translation coordinators**:
  - the prompt builder (`Translator.swift`);
  - `TranslatorService` (library) and `MainService` (application). Each one
    cancels and awaits the previous translation run before starting a new
    one, then streams the engine's fragments into the output.

Modules follow the Swift files:

| module | file |
|---|---|
| `Common` | shared `Option`, `Result`, `Outcome`, the error taxonomy, `Concat` |
| `Translation` (`translator.dfy`) | `Translator.swift` |
| `Files` (`files.dfy`) | `FileManagerExtension.swift`, plus the file system it acts on |
| `Downloads` (`downloads.dfy`) | `URLSessionDownloadTaskExtension.swift` |
| `Cache` (`cached_model.dfy`) | `CachedModel.swift`, `ModelSource.swift` |
| `Models` (`model.dfy`) | `Model.swift` |
| `Service` (`translator_service.dfy`) | `TranslatorService.swift` |
| `AppService` (`app_service.dfy`) | `MainService.swift` |

Pure Swift code (`Translator`, the URL and path helpers, the response
checks) becomes functions and lemmas. The `@MainActor` classes become
Dafny classes with the same fields, and their methods carry `modifies`
clauses. The file system (`FileManager.default`) becomes a `FileSystem`
object that maps each existing path to a file or a directory.

Swift concurrency is modelled as discrete events. Between two `await`
points, everything a method does happens in one Dafny method. There are
two exceptions, both under "## Left out":
- the cache's download task, whose two spans are one event
  (`Cache.CachedModel.RunDownloadTask`);
- the streaming loops, where several iterations of `for try await`, each
  of which awaits the stream's next element, are one `Receive` event.

- **Tasks.** Each spawned `Task` is one of two things:
  - a counter of tasks that have not started yet (for example
    `pendingRequests` and `pendingDownloads`);
  - a numbered record whose outcome appears in a map once it has one (the
    cache's download task, and the model's loading tasks).
- **Translation runs.** A run is a record in `runs`, and its identity (the
  `Box` compared with `===`) is its index. Its suspension points are
  separate methods: `Begin`, `Resume`, `Wake`, `LoadModel`/`LoadFinished`,
  `Receive` and `EndStream`. Each of these does nothing when the run is not
  at that point.

The main results are these.

- **Serialization.** `Service.Serialized` and `AppService.Consistent` are
  preserved by every event. `AtMostOneActive` follows from them: at most
  one run is ever past its await on the previous run and unfinished.
  Every write to the output is made by that run. While it streams, the
  output is exactly the fragments it has received, in order (`Receive`).
- **The slot rule.** A finishing run clears the slot only if the slot still
  holds that run. A set slot always holds the newest run. `isTranslating`
  is true exactly when some run is unfinished (`IsTranslating`,
  `SlotMeansUnfinished`). In `MainService` the stored `isTranslating` flag
  stays equal to "some run is active" (`Consistent`).
- **Downloads.** The continuation is resumed at most once, and exactly once
  in the cases the delegate's comments describe (`ResumedExactlyOnce`). A
  successful resumption leaves the file at its destination
  (`ResumeDownloading`).
- **The prompt.** `Prompt` fills the template's three slots with the
  direction, the style and the trimmed input (`PromptFillsSlots`). Proved
  facts about its parts:
  - the trim is idempotent and dropped text is whitespace;
  - the style raw values are distinct and round-trip;
  - the direction heuristic has an exact closed form.

## Notes on the code's behaviour

- **The automatic direction uses integer division.** `translate` compares
  `asciiCount < totalCount * 3 / 4`, and the division truncates. So the
  choice is Japanese-to-English iff `4 * ascii + 4 <= 3 * total`
  (`AutomaticDirectionExact`). A string of one non-ASCII character is
  therefore read as English (`SingleNonAsciiIsEnglish`).
- **A run's errors reach no caller.** `translate(debounce:)` and both
  `translate()` functions return as soon as the run's task is created. A
  run's outcome is kept only in its `Done` phase.
- **A cancelled run that is streaming.** The streaming loop does not check
  for cancellation itself. It appends what the stream hands out until the
  stream ends, and then exits normally. In the model, a cancelled run's
  next batch is the last one: `Receive` appends it and ends the run with
  success.
- **The model a run waits for is fixed when the wait begins.** The getter
  `llamaModel` reads `loadingTask` once and then awaits that task. A
  `load()` or `purge()` during the wait does not change what the run
  gets. The model captures the task in the run's `LoadingModel` phase, in
  `Resume` and `Wake`.

## Model

| member | source | states |
|---|---|---|
| Common.ConcatAppend | Sources/TranslatorSupport/TranslatorService.swift:155-157 | appending two batches of fragments one after the other gives the same output as appending them all at once |
| Translation.StyleRawValueRoundTrip | Sources/TranslatorSupport/Translator.swift:41-53 | every style is recovered from its raw value |
| Translation.StyleRawValuesDistinct | Sources/TranslatorSupport/Translator.swift:41-53 | two styles have the same raw value iff they are the same style |
| Translation.DirectionRawValuesDistinct | Sources/TranslatorSupport/Translator.swift:12-15 | the two directions have different raw values |
| Translation.AsciiCount | Sources/TranslatorSupport/Translator.swift:25-26 | the ASCII scalar count never exceeds the scalar count |
| Translation.ExplicitModesIgnoreText | Sources/TranslatorSupport/Translator.swift:32-35 | an explicit mode gives its own direction whatever the text |
| Translation.AutomaticDirectionExact | Sources/TranslatorSupport/Translator.swift:24-31 | automatic mode picks Japanese-to-English iff `4 * ascii + 4 <= 3 * total`, English-to-Japanese otherwise |
| Translation.AllAsciiCount | Sources/TranslatorSupport/Translator.swift:25-26 | in all-ASCII text every scalar is counted |
| Translation.NoAsciiCount | Sources/TranslatorSupport/Translator.swift:25-26 | in text without ASCII nothing is counted |
| Translation.AllAsciiIsEnglish | Sources/TranslatorSupport/Translator.swift:24-31 | all-ASCII text, the empty text included, is translated English-to-Japanese |
| Translation.NoAsciiIsJapanese | Sources/TranslatorSupport/Translator.swift:24-31 | text of two or more scalars, none ASCII, is translated Japanese-to-English |
| Translation.SingleNonAsciiIsEnglish | Sources/TranslatorSupport/Translator.swift:24-31 | a single non-ASCII scalar is read as English, because of the integer division |
| Translation.AsciiCountSnoc | Sources/TranslatorSupport/Translator.swift:25-26 | appending a scalar adds one to the count exactly when it is ASCII |
| Translation.AppendAsciiStaysEnglish | Sources/TranslatorSupport/Translator.swift:24-31 | appending ASCII to text read as English keeps it English |
| Translation.TrimStart | Sources/TranslatorSupport/Translator.swift:79 | the result is a suffix of the input, everything dropped is whitespace, and the result does not start with whitespace |
| Translation.TrimEnd | Sources/TranslatorSupport/Translator.swift:79 | the result is a prefix of the input, everything dropped is whitespace, and the result does not end with whitespace |
| Translation.Trim | Sources/TranslatorSupport/Translator.swift:79 | a non-empty result neither starts nor ends with whitespace |
| Translation.TrimIsSlice | Sources/TranslatorSupport/Translator.swift:79 | the trimmed text is a contiguous slice of the input with only whitespace outside it |
| Translation.TrimStartFixed | Sources/TranslatorSupport/Translator.swift:79 | text that does not start with whitespace is left unchanged by trimming the start |
| Translation.TrimEndFixed | Sources/TranslatorSupport/Translator.swift:79 | text that does not end with whitespace is left unchanged by trimming the end |
| Translation.TrimIdempotent | Sources/TranslatorSupport/Translator.swift:79 | trimming trimmed text changes nothing |
| Translation.TrimEmptyIff | Sources/TranslatorSupport/TranslatorService.swift:132-134 | the trimmed input is empty iff the input is all whitespace |
| Translation.FormatLiteral | Sources/TranslatorSupport/Translator.swift:81 | text without a `%` passes through the formatter unchanged |
| Translation.FormatArgument | Sources/TranslatorSupport/Translator.swift:81 | `%@` takes the next argument, and fails when none is left |
| Translation.FormatRendered | Sources/TranslatorSupport/Translator.swift:81 | formatting a template whose text runs have no `%` gives the template with its slots filled in order |
| Translation.FillThreeSlots | Sources/TranslatorSupport/Translator.swift:81 | a three-slot template in seven segments fills to text, argument, text, argument, text, argument, text |
| Translation.PromptFillsSlots | Sources/TranslatorSupport/Translator.swift:56-83 | the prompt is the template with the direction (decided on the trimmed input), the style's raw value and the trimmed input in its three slots |
| Translation.PromptDependsOnlyOnTrimmed | Sources/TranslatorSupport/Translator.swift:78-81 | an input and its trimmed form give the same prompt |
| Files.LastPathComponentOfAppended | Sources/TranslatorSupport/FileManagerExtension.swift:14-17 | appending a component, as a file or a directory, makes it the last path component |
| Files.ApplicationSupportDirectory | Sources/TranslatorSupport/FileManagerExtension.swift:25-31 | fails with no bundle identifier, passes on a failed lookup, and otherwise gives the support directory plus bundle identifier and name, as a directory |
| Files.CreateDirectoryCreates | Sources/TranslatorSupport/FileManagerExtension.swift:33-42 | with nothing at the path and no file in the way: success, the directory and all its ancestors exist, existing items are kept, and the backup exclusion is added iff asked |
| Files.CreateDirectoryExisting | Sources/TranslatorSupport/FileManagerExtension.swift:43-47 | an existing directory gives success and no change |
| Files.CreateDirectoryRefuses | Sources/TranslatorSupport/FileManagerExtension.swift:33-47 | a file at the path or in the way gives a failure and no change |
| Files.CreateDirectoryIdempotent | Sources/TranslatorSupport/FileManagerExtension.swift:33-48 | a repeated call changes nothing and has the same outcome |
| Files.CreateDirectoryOutcome | Sources/TranslatorSupport/FileManagerExtension.swift:33-48 | the call succeeds exactly when a directory is at the path afterwards |
| Files.CreateDirectoryKeepsWellFormed | Sources/TranslatorSupport/FileManagerExtension.swift:33-48 | when every ancestor of an existing item is a directory, that stays true after the call |
| Files.MoveItemEffect | Sources/TranslatorSupport/URLSessionDownloadTaskExtension.swift:56 | a successful move puts the source's item at the destination and removes it from the source; a failed move changes nothing |
| Files.MoveItemKeepsWellFormed | Sources/TranslatorSupport/URLSessionDownloadTaskExtension.swift:56 | moving a file keeps every ancestor of an existing item a directory |
| Files.FileSystem.CreateDirectory | Sources/TranslatorSupport/FileManagerExtension.swift:33-48 | the outcome and the new file system are those of `CreateDirectorySpec`; after a success an item exists at the URL; a failure changes nothing; a well-formed file system stays well-formed |
| Files.FileSystem.MoveItem | Sources/TranslatorSupport/URLSessionDownloadTaskExtension.swift:56 | the outcome and the new entries are those of `MoveItemSpec`; after a success an item exists at the destination and none at the source; a failure changes nothing; moving a file keeps the file system well-formed; backup exclusions are unchanged |
| Downloads.FinishReportsMove | Sources/TranslatorSupport/URLSessionDownloadTaskExtension.swift:10-66 | did-finish reports success only when it moved the file, and then reports the move's own outcome; for an HTTP response it moves exactly when the status is 2xx; anything else it reports is a failure |
| Downloads.ResumedExactlyOnce | Sources/TranslatorSupport/URLSessionDownloadTaskExtension.swift:32-66 | the continuation is resumed at most once; exactly once iff the task failed or did-finish was delivered; with the task's error if any, else with did-finish's result |
| Downloads.ContinuationDelegate.constructor | Sources/TranslatorSupport/URLSessionDownloadTaskExtension.swift:27-30 | a new delegate holds its location and has resumed nothing |
| Downloads.ContinuationDelegate.DidCompleteWithError | Sources/TranslatorSupport/URLSessionDownloadTaskExtension.swift:32-37 | appends the did-complete resumption, if any |
| Downloads.ContinuationDelegate.DidFinishDownloadingTo | Sources/TranslatorSupport/URLSessionDownloadTaskExtension.swift:39-66 | appends the did-finish resumption, and moves the file only when there is no task error, there is a response, and any HTTP status is 2xx |
| Downloads.ResumeDownloading | Sources/TranslatorSupport/URLSessionDownloadTaskExtension.swift:69-80 | returns the first resumption (none when none comes) and moves the file only in the moving case; a success leaves an item at the destination |
| Cache.DefaultFileName | Sources/TranslatorSupport/ModelSource.swift:16-19 | the default source is cached as `C3TR-Adapter-Q4_k_m.gguf` |
| Cache.ModelFile | Sources/TranslatorSupport/CachedModel.swift:15-19 | the model file is named after the source's last path component, inside the models directory |
| Cache.RefreshIdempotent | Sources/TranslatorSupport/CachedModel.swift:61-69 | refreshing twice over an unchanged file system equals refreshing once |
| Cache.RefreshedUrlMeaning | Sources/TranslatorSupport/CachedModel.swift:61-69 | after a refresh, the URL is set iff the model file exists, and then it is that file; with no models directory the URL is untouched |
| Cache.CachedModel.constructor | Sources/TranslatorSupport/CachedModel.swift:57-59 | a new cache has the given source, no download, no URL and no recorded outcomes, so it is unavailable |
| Cache.CachedModel.Update | Sources/TranslatorSupport/CachedModel.swift:61-69 | the URL becomes the refreshed one, which is the model file whenever it is set; the call fails iff the models directory cannot be resolved, with that error; the download is untouched |
| Cache.CachedModel.Download | Sources/TranslatorSupport/CachedModel.swift:71-76 | joins the recorded download, leaving the task count, or records a new task numbered by the count, which grows by one; either way the state is loading and every awaited outcome is unchanged |
| Cache.CachedModel.RunDownloadTask | Sources/TranslatorSupport/CachedModel.swift:89-100 | runs only for a task that was created and has not completed, and otherwise changes nothing; an unresolved directory or a refused directory creation fails with nothing changed; otherwise the outcome is the transfer's first resumption into the model file, the file system is the one the transfer's move leaves, and a success sets the URL to the model file, which exists; the outcome is recorded for this task only, so other tasks' awaited outcomes are unchanged |
| Cache.CachedModel.ResumeStarter | Sources/TranslatorSupport/CachedModel.swift:73-86 | resumes only while the record is the caller's own and its task has completed; it then returns the outcome every caller awaiting the task sees, joined or not, and clears the record on success and on failure alike; awaited outcomes never change |
| Models.StateMirrorsCache | Sources/TranslatorSupport/Model.swift:21-30 | the model state and the cache state correspond one to one, case for case |
| Models.LookupFor | Sources/TranslatorSupport/Model.swift:49-55 | no loading task gives no model; an unfinished task is pending; a task that finished with success gives the engine for its file, and one that failed gives its error |
| Models.Model.constructor | Sources/TranslatorSupport/Model.swift:38-40 | a new model has no loading task |
| Models.Model.State | Sources/TranslatorSupport/Model.swift:15-36 | the state stands for the cache's state; an available model is the file named after the model's source |
| Models.Model.Update | Sources/TranslatorSupport/Model.swift:42-47 | refreshes the cache's URL and leaves its download alone |
| Models.Model.Load | Sources/TranslatorSupport/Model.swift:57-67 | after a refresh, a new loading task for the file starts iff the file is available; otherwise the current task is kept |
| Models.Model.CompleteLoad | Sources/TranslatorSupport/Model.swift:64-66 | records the construction's outcome for a task that was started and has not completed, once; any other call changes nothing |
| Models.Model.Download | Sources/TranslatorSupport/Model.swift:69-75 | after a refresh, a download task is spawned iff the cache is unavailable |
| Models.Model.StartSpawnedDownload | Sources/TranslatorSupport/Model.swift:76-78 | a pending spawned task calls the cache's download: it joins the recorded task, leaving the task count, or records a new task with the next number; the state is then loading |
| Models.Model.FinishSpawnedDownload | Sources/TranslatorSupport/Model.swift:76-82 | returns the task's awaited outcome, which a starter gets only while the record is its own, and then clears it; on success the cache URL is refreshed and a new loading task starts iff the file is available; otherwise the URL, the loading task and the load count are unchanged |
| Models.Model.Purge | Sources/TranslatorSupport/Model.swift:85-93 | refreshes, then drops the loading task iff the cache's purge succeeds, after which no model is available; the cache's download record, task count and outcomes are unchanged |
| Service.AtMostOneActive | Sources/TranslatorSupport/TranslatorService.swift:104-130 | at most one run is past its await on the previous run and unfinished |
| Service.SlotMeansUnfinished | Sources/TranslatorSupport/TranslatorService.swift:90-94 | the slot is set iff some run has not finished |
| Service.PredecessorsDone | Sources/TranslatorSupport/TranslatorService.swift:124-130 | once the previous run has finished, every earlier run has finished |
| Service.Step | Sources/TranslatorSupport/TranslatorService.swift:117-157 | a run past its await may advance or finish, clearing the slot only if the slot holds it, and the invariant is kept |
| Service.BeginStep | Sources/TranslatorSupport/TranslatorService.swift:124-127 | starting a run and cancelling its previous run keeps the invariant |
| Service.RequestStep | Sources/TranslatorSupport/TranslatorService.swift:104-159 | adding a new, unstarted run that captured the current slot, and putting it in the slot, keeps the invariant |
| Service.TranslatorService.constructor | Sources/TranslatorSupport/TranslatorService.swift:32-88 | automatic translation on, automatic mode, technical style, empty strings, no run |
| Service.TranslatorService.IsTranslating | Sources/TranslatorSupport/TranslatorService.swift:92-94 | `isTranslating` is true iff some run has not finished |
| Service.TranslatorService.InputDidChange | Sources/TranslatorSupport/TranslatorService.swift:68-79 | spawns a debounced request iff automatic translation is on |
| Service.TranslatorService.SetAutomaticTranslationEnabled | Sources/TranslatorSupport/TranslatorService.swift:32-39 | requests only when the setting changes from off to on |
| Service.TranslatorService.SetMode | Sources/TranslatorSupport/TranslatorService.swift:41-48 | requests iff the mode changes while automatic translation is on |
| Service.TranslatorService.SetStyle | Sources/TranslatorSupport/TranslatorService.swift:50-57 | requests iff the style changes while automatic translation is on |
| Service.TranslatorService.SetInputString | Sources/TranslatorSupport/TranslatorService.swift:59-66 | requests iff the input changes while automatic translation is on |
| Service.TranslatorService.Request | Sources/TranslatorSupport/TranslatorService.swift:104-160 | captures input, mode, style and the current slot in a new run, which becomes the slot's run; the invariant is kept |
| Service.TranslatorService.StartPendingRequest | Sources/TranslatorSupport/TranslatorService.swift:73-78 | a spawned task makes a debounced request with the current input, mode and style; with no task pending nothing changes |
| Service.TranslatorService.Translate | Sources/TranslatorSupport/TranslatorService.swift:96-102 | does nothing while automatic translation is on, and otherwise requests without debounce |
| Service.TranslatorService.Begin | Sources/TranslatorSupport/TranslatorService.swift:124-127 | a starting run marks its previous run cancelled |
| Service.TranslatorService.Advance | Sources/TranslatorSupport/TranslatorService.swift:117-121 | a run past its await moves to its next phase, every other run is unchanged, the slot is cleared only when the run finishes while the slot holds it, and the invariant is kept |
| Service.TranslatorService.Exit | Sources/TranslatorSupport/TranslatorService.swift:117-122 | a finishing run clears the slot only if the slot still holds it |
| Service.TranslatorService.Resume | Sources/TranslatorSupport/TranslatorService.swift:124-143 | a run goes on only after its previous run finished; an input that trims to nothing clears the output and finishes; the others sleep when debounced and otherwise begin awaiting the model's current loading task |
| Service.TranslatorService.Wake | Sources/TranslatorSupport/TranslatorService.swift:139-143 | a run cancelled during the delay fails with cancellation and writes nothing; otherwise it begins awaiting the model's current loading task |
| Service.TranslatorService.LoadModel | Sources/TranslatorSupport/TranslatorService.swift:143-153 | decided by the loading task the run captured: none fails at once with "no model available", an unfinished one waits, a failed one ends the run with its error, and a finished one clears the output and gets that task's engine with the captured mode, style and trimmed input, which is not empty |
| Service.TranslatorService.StartStream | Sources/TranslatorSupport/TranslatorService.swift:150-153 | the output is cleared and the run streams having received nothing, leaving the slot and every other run as they were |
| Service.TranslatorService.Receive | Sources/TranslatorSupport/TranslatorService.swift:155-157 | appends the fragments in order, so that the output is all fragments received so far; a cancelled run appends its last batch and then ends with success |
| Service.TranslatorService.AppendFragments | Sources/TranslatorSupport/TranslatorService.swift:155-157 | the output grows by exactly the batch's fragments joined in order |
| Service.TranslatorService.EndStream | Sources/TranslatorSupport/TranslatorService.swift:155-158 | the stream's end or error finishes the run under the slot rule, with the output unchanged |
| AppService.AtMostOneActive | Applications/Translator/Sources/MainService.swift:70-109 | at most one run is past its await on the previous run and unfinished |
| AppService.PredecessorsDone | Applications/Translator/Sources/MainService.swift:82-88 | once the previous run has finished, every earlier run has finished |
| AppService.Step | Applications/Translator/Sources/MainService.swift:90-109 | a run past its await may advance or finish, and the flag was and stays "this run is active"; the invariant is kept |
| AppService.BeginStep | Applications/Translator/Sources/MainService.swift:82-85 | starting a run and cancelling the one before it keeps the invariant |
| AppService.RequestStep | Applications/Translator/Sources/MainService.swift:70-77 | adding a new, unstarted run as the newest keeps the invariant |
| AppService.MainService.constructor | Applications/Translator/Sources/MainService.swift:19-31 | automatic mode, technical style, empty strings, not translating, no run |
| AppService.MainService.PreloadModel | Applications/Translator/Sources/MainService.swift:33-46 | after a refresh, a new translator construction starts iff the file is available; otherwise the loading task is kept |
| AppService.MainService.CompleteLoad | Applications/Translator/Sources/MainService.swift:43-45 | records the construction's outcome for a task that was started and has not completed, once; any other call changes nothing |
| AppService.MainService.DownloadModel | Applications/Translator/Sources/MainService.swift:48-65 | after a refresh, a download task is spawned iff the cache is unavailable; the source string, mode and style are unchanged |
| AppService.MainService.StartSpawnedDownload | Applications/Translator/Sources/MainService.swift:58-60 | a pending spawned task calls the cache's download: it joins the recorded task, leaving the task count, or records a new task with the next number; the state is then loading; the source string, mode and style are unchanged |
| AppService.MainService.FinishSpawnedDownload | Applications/Translator/Sources/MainService.swift:58-64 | returns the task's awaited outcome, which a starter gets only while the record is its own, and then clears it; on success the cache URL is refreshed and a new translator construction starts iff the file is available; otherwise the URL, the loading task and the load count are unchanged; the source string, mode and style are unchanged |
| AppService.MainService.Translate | Applications/Translator/Sources/MainService.swift:70-110 | captures the source string, mode and style in a new run, stored unconditionally as the newest; the invariant is kept |
| AppService.MainService.Begin | Applications/Translator/Sources/MainService.swift:82-85 | a starting run marks the run before it cancelled; the source string, mode and style are unchanged |
| AppService.MainService.Resume | Applications/Translator/Sources/MainService.swift:82-98 | goes on only after the previous run finished, then preloads; with no loading task it fails with output and flag unchanged; otherwise it clears the output and sets the flag |
| AppService.MainService.Exit | Applications/Translator/Sources/MainService.swift:99-102 | every exit after the flag was set resets it |
| AppService.MainService.LoadFinished | Applications/Translator/Sources/MainService.swift:104-106 | a failed construction ends the run and resets the flag; a translator receives the prompt built from the captured source string, mode and style |
| AppService.MainService.Receive | Applications/Translator/Sources/MainService.swift:106-108 | appends the fragments in order, so that the output is all fragments received so far; a cancelled run appends its last batch and then ends with success |
| AppService.MainService.AppendFragments | Applications/Translator/Sources/MainService.swift:106-108 | the output grows by exactly the batch's fragments joined in order |
| AppService.MainService.EndStream | Applications/Translator/Sources/MainService.swift:106-109 | the stream's end or error finishes the run and resets the flag |

## Left out

- **Concurrency itself.** Interleavings are modelled as events, one per
  span between two `await` points, except for the two merges below
  (`RunDownloadTask` and `Receive`). The main-actor isolation that makes each
  span atomic is assumed, not modelled.
- Cache.CachedModel.RunDownloadTask: the task body's span before `try await
  downloadTask.resumeDownloading(to:)` and the span after it (`url =
  fileURL`) are merged into one event, with the transfer in between. An
  `update()` that runs between the two spans reaches the same states:
  - it writes only `url`;
  - on success the second span overwrites `url` with the model file;
  - on failure there is no second span, and the transfer moved nothing, so
    the interleaved `update()` sees the same files as one run after the
    event;
  - the download record is set throughout, so `state` reads as loading
    either way.
- **`[weak self]`.** The path where the service is deallocated before its
  task runs is not modelled. The service always exists.
- **`withTaskCancellationHandler` in `resumeDownloading(to:)`.** Cancelling
  a download task is not modelled. A cancelled transfer appears only as a
  task error.
- **The debounce delay.** `Task.sleep(nanoseconds: 1.0.seconds)` is the
  `Wake` event. The `Double.seconds` conversion and the clock are left out.
- **Fragments.** The engine's fragments arrive in batches (`Receive`).
  One batch merges several iterations of the `for try await` loop, which
  each await the stream's next element. Cancellation is only noticed
  between batches. After cancellation the
  stream hands out what it had already buffered; the model takes that to be
  one final batch, of any length, after which the run ends. The engine itself
  (`LlamaModel`, `Translator(modelURL:)`) is outside the model:
  - a construction's outcome is an input (`CompleteLoad`);
  - the fragments are inputs;
  - a stream error is an input.
- **Transport.** `Progress` is opaque (a number). The URLSession transfer is
  an input (`Downloads.Transfer`).
- **External writes to the output.** The UI can write `translatedString`
  directly, and those writes are not modelled. The output invariants assume
  they do not happen.
- **The file system.** Only the behaviour the core relies on is modelled:
  - which kind of item is at each path, and backup exclusion;
  - failures come from what is present. Permission and I/O errors are not
    modelled;
  - a moved item's children do not move with it, so well-formedness
    (`WellFormed`: every ancestor of an item is a directory) is proved kept
    only when the moved item is a file, which is the only move the core
    makes;
  - `url(for:in:appropriateFor:create: true)` is an input. Its own
    directory creation is not modelled.
- **URLs.** A URL is reduced to scheme, host, path components and a
  directory hint. Percent-encoding is not modelled.
- **Whitespace.** `CharacterSet.whitespacesAndNewlines` is approximated by
  Unicode's `White_Space` code points (`IsWhitespace`). Trimming acts on
  Unicode scalars, not grapheme clusters.
- **`String(format:)`.** Only `%@` and `%%` are modelled. Any other
  specifier, or a missing argument, fails. `FormatRendered` ties `Format`
  of the rendered template to `Prompt`, but it needs the template's text to
  contain no `%`. That is true of the literal but is not proved, because
  the verifier cannot check character membership in literals that long.
- **`Translator.prompt(mode:style:input:)`.** `TranslatorService` calls it,
  but `Translator` does not define it. `LoadModel` returns the arguments it
  would receive, and the prompt text is not modelled.
- **`CachedModel.purge()`.** `Model.purge()` calls it, but `CachedModel`
  does not define it. Its outcome is an input to `Purge`, and its effect on
  the file is not modelled.
- **Mismatched initializers.**
  - `TranslatorService.init` calls `CachedModel(modelsCacheURL:source:)`.
  - `MainService` declares `CachedModel(source:)` at a point where the
    initializer is internal to another module.

  Neither initializer is invented around. Both services take their model
  or cache as a constructor parameter.
- **Names that do not exist in the called types.** Two of the source's
  calls use names that the called types do not declare:
  - `Mode.autoDetect` (used by `TranslatorService`) is read as `Automatic`;
  - `CachedModel.State.downloading` (matched by `Model.state`) is read as the
    cache's `loading` case.
- **The user interface** (views, app delegate, settings) is not modelled.
