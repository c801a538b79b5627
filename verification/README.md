# DocForge, verified

DocForge turns PDFs into structured documents: it extracts or recognises the text of every page,
groups it into headings, lists and tables, cleans it up, and exports it. Jobs run on workers that
may crash; users upload, cancel, retry and edit; a web client follows along. This project models
the logic of that system in Dafny and proves what it is meant to do.

`dafny verify dfyconfig.toml` checks everything.

## How it is laid out

- **Text and tree.** `Text`, `JsText` and `Seqs` hold the string and sequence functions of the two
  languages; `Cdom` is the document model with its validation.
- **Extraction.** `Extract` groups glyphs into lines and segments, `Pages` makes pages of them:
  digital, mixed and scanned. `PageWords` says what the blocks of a line and of a page hold.
- **Layout and clean-up.** `Recognize` and `Reconstruct` are the four recognisers and the grouping
  loop, as functions and as the loops of the source; `Segmentation` says what the grouping means.
  `Layout` and `Postprocess` are the two stages around it. `Preservation` and `BlockIds` prove
  what both keep, `Outline` what becomes of every block, `ReadingOrder` what the sort comes to,
  `Scans` which documents with pages read by OCR pass the validation that follows.
- **Export.** `Export` is the markdown printer. `RoundTrip` reads printed tables as GitHub
  Flavored Markdown, `ReadBack` blocks of every other type; `PipeRoundTrip` and `ListRoundTrip`
  hand tables and lists back to the layout stage; `Words` follows the words of a document through
  clean-up and export.
- **Jobs.** `EngineSteps` and `ServiceSteps` are the worker and the use cases as machines that
  make one storage call a step and hold their own copies of rows in between. `Orchestration`,
  `Cancellation`, `Progress`, `Redelivery`, `Ownership` and `OcrFanout` prove what holds over
  their interleavings, `Verdicts` how a Run goes on and ends. `Engine` and `Service` are the same
  operations as they are written, over the fallible stores of `Backend`, each proved to do what
  its machine does: `Engine.Worker` and `Service.Service` carry a machine along and show that it
  is in step at every storage call. `FileNames` says which files an upload accepts.
- **Stores and limits.** `Stores` are the in-memory repositories; `Backend` is what their clients
  see, with a log of `Calls`. `Deletion` says what a log of deletions leaves, `Sweeper` is the TTL
  sweep and deletion, `Leftovers` the interleaving of deletions with everything else. `Quota` are
  the two upload counters, `RateLimiter` the token bucket.
- **Web client.** `Sse` is the event stream from both ends, `Preview` the markdown preview.

## What is assumed

- Extraction, OCR, JSON and DOCX are deterministic functions of their inputs, or outcomes left
  open; an OCR or parse failure may happen at any call.
- A storage call either happens or fails without an effect. Which ones fail is given by their
  number; the log of the stores records every call with its outcome. Fresh identifiers come from a
  counter; object keys are a datatype with one shape per kind of key.
- Library sorts are arbitrary functions that rearrange (and, for the exporter, the viewer and
  glyphs within a line, order by their key). Of the sort that layout puts a page in order with,
  `Layout` assumes at most that it rearranges, because its comparison is not transitive;
  `ReadingOrder` says what it gives on the pages where it is.
- Numbers are exact: `real` for floating point, unbounded integers elsewhere.
- Times are numbers; the clock of the rate limiter does not run backwards.
- Strings are sequences of code points. The class of letters and the spelling of formats are
  parameters.

Where the code and its comments differ, the code is followed. Five places stand out. A cancel that
lands while a Run holds a copy of the job can be overwritten; `Cancellation` reaches such states
and proves exactly when it cannot. A page read by OCR gets a box drawn in by 72 on every side,
with its corners exchanged when the page is narrower or lower than 144: unless its text is blank,
and so pruned first, the document then fails validation; `Scans` proves exactly when. A Run that
has loaded a failed job can never complete it (`Engine.LoadedFailureWritesFailed`). Layout is said
to sort blocks from top to bottom, but puts the larger lower edge first in boxes that grow
downwards: `ReadingOrder` proves that an extracted page is read from its bottom line up. A
deletion ignores the errors of its single calls: what it fails to delete, be it an object, a job
or an artifact row, stays for good once the document's own row is gone (`Leftovers`).

## Model

| member | source | states |
|---|---|---|
| `Orchestration.PlayKeeps` | apps/api/internal/orchestrator/engine.go:153-314 | the store invariant (rows filed under their ids, attempts within bounds, completed jobs exported, artifact keys stored, every local copy consistent) holds after every interleaving of Runs and use cases, call by call, with errors and crashes anywhere |
| `Orchestration.CompletedJobsAreExported` | apps/api/internal/orchestrator/engine.go:486-601 | in every reachable state a completed job has a CDOM row and an export row in every format that is among the exporters (all three when none is configured) and was requested (each one when nothing was), and there is such a format |
| `Orchestration.DefaultFormatsExported` | apps/api/internal/orchestrator/engine.go:486-564 | a file uploaded without formats: whatever happens from the call that stores it on, a completed job of its document has JSON, Markdown and DOCX rows, on an engine with its default exporters that takes their names as they are |
| `Orchestration.ArtifactsResolve` | apps/api/internal/orchestrator/engine.go:294-303 | in every reachable state every artifact row names a stored object |
| `Orchestration.AttemptsBounded` | apps/api/internal/orchestrator/engine.go:171-179 | in every reachable state a job has the attempts it was created with or one more, never above the configured maximum |
| `Orchestration.BornGrows` | apps/api/internal/application/service.go:258-286 | the n-th job of a chain of retries was created with at least n - 1 attempts |
| `Orchestration.RetryChainsBounded` | apps/api/internal/application/service.go:258-302 | however cancels, retries and redeliveries interleave, a chain of retries from an upload has at most maxAttempts jobs |
| `Redelivery.StepDescends` | apps/api/internal/orchestrator/engine.go:153-314 | every storage call brings a Run nearer its end, whatever the stores answer: every Run terminates |
| `Redelivery.CrashesLeaveNoTrace` | apps/api/internal/orchestrator/engine.go:153-314 | whatever earlier Runs of the document have stored, killed between any storage calls any number of times and redelivered, a Run that is left to end leaves the rows and bytes of one undisturbed Run, one row per kind and format, the job completed, one attempt counted, other rows untouched |
| `Redelivery.UploadDelivers` | apps/api/internal/application/service.go:97-127 | an upload delivers its job with nothing stored |
| `Redelivery.RetryDelivers` | apps/api/internal/application/service.go:258-286 | a retry delivers its job with the CDOM and the exports that the failed Run got done |
| `Cancellation.CancellationFinalIffQuiet` | apps/api/internal/orchestrator/engine.go:603-650 | a durable cancellation is final exactly when no Run, and no upload or retry that created the job, still holds a copy of its row to write back |
| `Cancellation.WorkerUndoes` | apps/api/internal/orchestrator/engine.go:621-632 | a Run that holds a copy can undo a cancellation: from any such state there is a continuation that does |
| `Cancellation.ErrorFreeRunUndoes` | apps/api/internal/orchestrator/engine.go:642-650 | left alone and without an error, a Run that holds a copy of a job that has not failed has undone the cancellation by the time it ends |
| `Cancellation.RunUndoesCancellation` | apps/api/internal/orchestrator/engine.go:642-650 | it happens: a Run loads an uploaded job, the job is cancelled, and the Run writes its copy back |
| `Cancellation.PublisherUndoes` | apps/api/internal/application/service.go:128-135 | an upload or retry whose publication fails can undo a cancellation |
| `Cancellation.PublisherUndoesCancellation` | apps/api/internal/application/service.go:128-135 | it happens: a job is cancelled before its upload finds that it cannot publish it |
| `Progress.JobWrites` | apps/api/internal/orchestrator/engine.go:579-670 | job rows change only at the listed storage calls, and then only the row of the Run itself, to the copy it holds |
| `Progress.OcrPctGrows` | apps/api/internal/orchestrator/engine.go:142-150 | the OCR percentage stays inside its stage, grows with the pages done and ends at the end of the stage |
| `Progress.OcrPctExact` | apps/api/internal/orchestrator/engine.go:142-150 | the percentage is the share of the stage that is done, rounded down |
| `Progress.ProgressNeverGoesBack` | apps/api/internal/orchestrator/engine.go:195-314 | whatever happens to the stores meanwhile, the progress one Run writes never decreases from its first checkpoint on, stays inside the bounds of each stage for digital, mixed and scanned documents, and is 100 exactly on the completed row |
| `OcrFanout.ParallelOcr` | apps/api/internal/orchestrator/engine.go:131-140 | two provider calls at a time unless configured, and never more than 4 |
| `OcrFanout.FanoutSafe` | apps/api/internal/orchestrator/engine.go:436-460 | under every schedule at most that many calls are in flight, the map holds exactly the finished pages, and progress rises inside the stage |
| `OcrFanout.NeverStuck` | apps/api/internal/orchestrator/engine.go:436-460 | while a goroutine is unfinished some goroutine can move: semaphore and mutex cannot deadlock |
| `OcrFanout.StepsRunOut` | apps/api/internal/orchestrator/engine.go:436-460 | every step of a goroutine decreases what is left, so all goroutines finish |
| `OcrFanout.FanoutResult` | apps/api/internal/orchestrator/engine.go:461-466 | once all have finished the slots and the mutex are free, and success means the keys are exactly the requested pages with their texts |
| `Engine.FilterExporters` | apps/api/internal/orchestrator/engine.go:549-564 | the exporters (JSON, Markdown and DOCX when none is configured) whose format some requested name stands for, in their order and as often; all when nothing was requested |
| `EngineSteps.SelectedAre` | apps/api/internal/orchestrator/engine.go:549-564 | the machine selects the same formats |
| `Engine.Worker.SetProgress` | apps/api/internal/orchestrator/engine.go:621-632 | the working copy takes stage and progress and is written to its row |
| `Engine.Worker.Checkpoint` | apps/api/internal/orchestrator/engine.go:603-619 | looks for a cancellation, then writes the stage, as the two machine steps do; on an error the machine has stopped in the same way |
| `Engine.Worker.HandleStepErr` | apps/api/internal/orchestrator/engine.go:316-321 | a cancellation ends the Run quietly, another error goes to the caller |
| `Engine.Worker.MarkCancelled` | apps/api/internal/orchestrator/engine.go:642-650 | the held copy of the job is written with the stage cancelled and its status as it was, then the document as cancelled; errors ignored |
| `Engine.Worker.Fail` | apps/api/internal/orchestrator/engine.go:652-670 | job, then document, written as failed; the retryable flag decides redelivery |
| `Engine.Worker.Load` | apps/api/internal/orchestrator/engine.go:153-170 | reads job and document; cancelled and completed jobs end the Run |
| `Engine.Worker.MarkProcessing` | apps/api/internal/orchestrator/engine.go:171-180 | a queued job: document written first, then the job with one more attempt |
| `Engine.Worker.ReadAndCount` | apps/api/internal/orchestrator/engine.go:199-212 | reads the PDF, rejects what does not parse, notes the page count |
| `Engine.Worker.Ocr` | apps/api/internal/orchestrator/engine.go:421-438 | batch OCR when the provider has it, page by page when the batch fails |
| `Engine.Worker.OcrPageByPage` | apps/api/internal/orchestrator/engine.go:439-466 | one progress write per finished page; a rejected page fails the job |
| `Engine.Worker.Pages` | apps/api/internal/orchestrator/engine.go:235-265 | the branch on the kind of the document |
| `Engine.Worker.Normalize` | apps/api/internal/orchestrator/engine.go:267-288 | layout, clean-up and validation behind their checkpoints |
| `Engine.Worker.StoreCdom` | apps/api/internal/orchestrator/engine.go:290-303 | object first, row after it |
| `Engine.Worker.EnsureExports` | apps/api/internal/orchestrator/engine.go:486-511 | no matching exporter, a missing or a garbled CDOM fail the job |
| `Engine.Worker.ExportOne` | apps/api/internal/orchestrator/engine.go:513-517 | a format that already has a row is not exported again |
| `Engine.Worker.ExportNew` | apps/api/internal/orchestrator/engine.go:518-536 | export, object, row; each failure with its own code |
| `Engine.Worker.Complete` | apps/api/internal/orchestrator/engine.go:579-601 | only a job that may become completed does; job, document, progress |
| `Engine.Worker.Run` | apps/api/internal/orchestrator/engine.go:153-314 | the whole Run, written as in the source, is at every storage call where the machine is, and makes exactly its calls |
| `Engine.Engine.Run` | apps/api/internal/orchestrator/engine.go:153-314 | the stores end where the machine leaves them, given the outcomes that their log shows for exactly the calls of the machine, and the answer is the machine's |
| `Engine.Serve` | apps/api/internal/infrastructure/rabbitmq/consumer.go:40-68 | until its context is done or the channel closes, messages are handled one after the other: an unparsable one is dead-lettered, an error is requeued, anything else acknowledged; each acts on the stores as the machine does, and the log shows exactly their calls |
| `Engine.StepsAreDrive` | apps/api/internal/orchestrator/engine.go:153-314 | the Run of the engine is the machine driven to its end |
| `Engine.UndisturbedRunDelivers` | apps/api/internal/orchestrator/engine.go:153-314 | whatever earlier jobs have stored, after any crashed and redelivered Runs a Run of the engine that meets no error leaves the delivery of the theorem above |
| `Engine.LoadedFailureWritesFailed` | apps/api/internal/domain/domain.go:114-133 | whatever happens to the stores between its calls, a Run that has loaded a failed job writes no row but failed rows of that job |
| `Engine.RedeliveredFailureStaysFailed` | apps/api/internal/orchestrator/engine.go:153-314 | with no other writer, the Runs of a failed job end with the job failed, whatever the stores answer |
| `Verdicts.MessageComesBackIff` | apps/api/internal/orchestrator/engine.go:153-321 | a Run ends for another try exactly when a store was down at one of the named calls, or its job has failed for a reason that may pass |
| `Verdicts.PdfFailures` | apps/api/internal/orchestrator/engine.go:199-212 | a PDF that cannot be read back leaves a job failed with STORAGE_ERROR and the message coming back; one that cannot be parsed INVALID_PDF and the message gone |
| `Verdicts.OcrFailures` | apps/api/internal/orchestrator/engine.go:421-466 | OCR that fails leaves OCR_ERROR and the message comes back |
| `Verdicts.NormalizationFailures` | apps/api/internal/orchestrator/engine.go:267-288 | a document refused by layout leaves LAYOUT_FAILED, one refused by validation NORMALIZATION_FAILED, and the message is gone |
| `Verdicts.CdomFailures` | apps/api/internal/orchestrator/engine.go:290-303 | a store that is down while the CDOM is written or read leaves STORAGE_ERROR and the message comes back; a CDOM that cannot be decoded NORMALIZATION_FAILED and the message is gone |
| `Verdicts.ExportFailures` | apps/api/internal/orchestrator/engine.go:486-536 | no exporter, or one that fails, leaves EXPORT_FAILED and the message is gone; a store that is down STORAGE_ERROR and the message comes back |
| `Verdicts.Admission` | apps/api/internal/orchestrator/engine.go:153-170 | a Run takes up a job exactly when its row is there and neither cancelled nor completed |
| `Verdicts.TakenUp` | apps/api/internal/orchestrator/engine.go:171-180 | a queued job that is taken up is stored as processing with one attempt more, after its document |
| `Verdicts.Stages` | apps/api/internal/orchestrator/engine.go:195-314 | the stage and percentage that each checkpoint leaves on the row, and where the Run goes from there |
| `Verdicts.PagesNoted` | apps/api/internal/orchestrator/engine.go:199-212 | the page count is stored, and a scanned document goes to OCR |
| `Verdicts.OcrIff` | apps/api/internal/orchestrator/engine.go:235-265 | OCR is called for a mixed or scanned document with pages to read, as a batch exactly when the provider has one and there are at least two |
| `Verdicts.OcrShown` | apps/api/internal/orchestrator/engine.go:421-466 | while OCR goes on the row shows the share of the pages done, from 30 to 55 for a mixed document and from 35 to 58 for a scanned one |
| `Verdicts.NothingTwice` | apps/api/internal/orchestrator/engine.go:183-193 | a document with a CDOM row goes on with its exports, a format with a row is passed over |
| `Verdicts.CompletesAs` | apps/api/internal/orchestrator/engine.go:579-601 | past its last export a job is stored as completed, at 100 and without an error, its document after it |
| `Verdicts.CancelsAs` | apps/api/internal/orchestrator/engine.go:603-650 | a cancelled job is noticed at a checkpoint: the copy goes back with the cancelled stage, the document as cancelled, and the message is gone |
| `Verdicts.UnpublishedFails` | apps/api/internal/application/service.go:128-135 | a new job or a retry whose message cannot be published is stored as failed with INTERNAL_ERROR |
| `Service.Service.UploadDocument` | apps/api/internal/application/service.go:55-138 | too large, not a PDF and unreadable are answered exactly for their cases, without a call to the stores; any other file is taken through the calls of the upload machine and answered exactly when none fails and the new identifiers are free; it then leaves exactly its original, a queued document (asking for all three formats when the caller names none) and a queued job |
| `FileNames.PdfNameIff` | apps/api/internal/application/service.go:377-381 | the accepted names are exactly those that end in .pdf, in either case of each letter, up to white space and then slashes of either kind |
| `FileNames.PdfTypeIff` | apps/api/internal/application/service.go:74-80 | the accepted ASCII content types are exactly none, the generic one and the two of PDF, the first with parameters too, whatever the case and the white space around |
| `Service.Service.CancelJob` | apps/api/internal/application/service.go:229-256 | the log shows exactly the calls of the cancel machine; a job that is over comes back unchanged, any other is stored and answered as cancelled, its document too when nothing fails; missing only when there is no row, an error only when a call failed |
| `Service.Service.RetryJob` | apps/api/internal/application/service.go:258-302 | the log shows exactly the calls of the retry machine; answered with a new queued job of one attempt more, stored, its document queued again when nothing fails; refused exactly for jobs that are not failed or cancelled or have no attempts left; missing, and an error, only for their reasons |
| `Service.Service.SaveMarkdown` | apps/api/internal/application/service.go:319-335 | the log shows exactly the calls of the save machine; an answered save has row and object agree with the new text; missing only when document or row is, with the stores untouched; an error only when a call failed |
| `Service.Service.RegenerateMarkdown` | apps/api/internal/application/service.go:338-375 | the log shows exactly the calls of the regenerate machine; answered only when row and object agree with the rendering of the object a CDOM row of the document names; missing only when something needed is; refused or an error only when a call or the export failed |
| `Service.Service.DeleteDocument` | apps/api/internal/application/service.go:176-192 | the log shows the reading of the row and the calls of a deletion, and the stores are without exactly what the successful ones delete; answered exactly when the document row went; when no call failed all of the document is gone |
| `ServiceSteps.MaxAttempts` | apps/api/internal/application/service.go:48-53 | the configured number when it is at least one, 3 otherwise |
| `Stores.DocumentRepo.ListRecent` | apps/api/internal/infrastructure/memory/memory.go:54-73 | different rows, newest first, cut to the limit, and no row left out is newer than a listed one |
| `Stores.DocumentRepo.Exchange` | apps/api/internal/infrastructure/memory/memory.go:62-68 | the exchange sort: a permutation, newest first |
| `Stores.JobRepo.DeleteByDocument` | apps/api/internal/infrastructure/memory/memory.go:145-154 | exactly the rows of other documents stay |
| `Stores.ArtifactRepo.ListByDocument` | apps/api/internal/infrastructure/memory/memory.go:185-195 | every row of the document, once |
| `Stores.ArtifactRepo.DeleteByDocument` | apps/api/internal/infrastructure/memory/memory.go:208-217 | exactly the rows of other documents stay |
| `Stores.FullListing` | apps/api/internal/infrastructure/memory/memory.go:54-73 | a listing with as many entries as rows has every row |
| `Sweeper.DeleteDocument` | apps/api/internal/cleanup/sweeper.go:54-66 | after listing the artifacts everything of the document is called for, whatever fails; the stores are without exactly what the successful calls delete; success is that of the call for the document row; when no call failed all of the document is gone |
| `Sweeper.Sweeper.RunOnce` | apps/api/internal/cleanup/sweeper.go:24-52 | one deletion after the other for every listed document not newer than the cutoff, whatever fails, and the count of the rows gone; it fails exactly with its listing; when no call failed exactly those documents are gone; nothing is called without a TTL |
| `Deletion.DeletionLeaves` | apps/api/internal/cleanup/sweeper.go:54-66 | of its document a row or object stays exactly when the listing failed or every call to delete it did; of others everything stays |
| `Deletion.DeletionExact` | apps/api/internal/cleanup/sweeper.go:54-66 | without a failed call exactly the document, its jobs, its artifacts and the objects they name are gone |
| `Deletion.SweepLeaves` | apps/api/internal/cleanup/sweeper.go:38-50 | the same of every document of a sweep, whatever becomes of the others |
| `Deletion.SweepExact` | apps/api/internal/cleanup/sweeper.go:38-50 | without a failed call exactly the documents of the sweep are gone; whatever fails, nothing else is |
| `Deletion.SweepIsExact` | apps/api/internal/cleanup/sweeper.go:54-66 | no row or named object of a deleted document is left, every row and object of the others is as it was |
| `Deletion.PartlyIsLocal` | apps/api/internal/cleanup/sweeper.go:54-66 | however far a deletion gets, the rows and objects of other documents are as they were, and nothing is added |
| `Leftovers.LeftForGood` | apps/api/internal/cleanup/sweeper.go:54-66 | in every state that Runs, use cases and deletions reach, interleaved call by call: once a document's own row is gone and no deletion or upload of it is under way, its objects, jobs and artifact rows are never taken out, whatever follows |
| `Leftovers.TakenWhileRow` | apps/api/internal/cleanup/sweeper.go:54-66 | as long as its row is there, everything that the rows of a document name can be taken out |
| `Leftovers.LeftBehind` | apps/api/internal/cleanup/sweeper.go:59-65 | it happens: the calls for the jobs and the original of an uploaded document fail, its row goes, and both are left for good |
| `Leftovers.NamedAgain` | apps/api/internal/orchestrator/engine.go:294-303 | while the row is there even an object that no row names can go: a Run under way stores its row again |
| `Leftovers.DeletionAlone` | apps/api/internal/cleanup/sweeper.go:54-66 | a deletion that nothing comes between leaves what the log of its calls says |
| `Deletion.NoExpiredLeft` | apps/api/internal/cleanup/sweeper.go:32-50 | with at most 500 documents no expired one is left |
| `Deletion.ExpiredLeftAreOldest` | apps/api/internal/cleanup/sweeper.go:32-50 | an expired document stays only when more than 500 exist, and then everything listed is at least as new |
| `Ownership.KeysOwned` | apps/api/internal/orchestrator/engine.go:294-303 | in every reachable state a row names only objects of its own document |
| `Ownership.DeletionIsLocal` | apps/api/internal/application/service.go:176-192 | after any run of the system, a deletion, however far it gets, touches no row and no object of another document |
| `Cdom.ValidateIffDocOk` | packages/cdom/cdom.go:90-167 | validation accepts exactly the documents in order at every depth |
| `Recognize.ItemSplits` | apps/api/internal/layout/reconstruct.go:12-15 | a list item is its marker, white space and its body |
| `Recognize.BulletIff` | apps/api/internal/layout/reconstruct.go:12-15 | the bullet lines are exactly those of one of five marks, white space and a body on one line |
| `Recognize.OrderedIff` | apps/api/internal/layout/reconstruct.go:12-15 | the numbered lines are exactly those of an optional bracket, digits, a bracket or full stop, white space and a body on one line |
| `Recognize.PipeCellsKeepInk` | apps/api/internal/layout/reconstruct.go:272-288 | the cells between pipes hold every visible character of the line but the pipes |
| `Recognize.SpaceCellsKeepInk` | apps/api/internal/layout/reconstruct.go:167-184 | so do the cells between wide gaps |
| `Recognize.SplitPipeCells` | apps/api/internal/layout/reconstruct.go:272-288 | the cells between pipes, none when there are fewer than two |
| `Recognize.SplitMultiSpaceCells` | apps/api/internal/layout/reconstruct.go:167-184 | the non-empty cells between wide gaps, none when there are fewer than two |
| `Recognize.IsMdSeparatorRow` | apps/api/internal/layout/reconstruct.go:290-303 | whether every cell is a non-empty rule |
| `Recognize.SeparatorIff` | apps/api/internal/layout/reconstruct.go:290-303 | the separator lines are those whose every cell shows dashes, colons and blanks, and at least one of them |
| `Recognize.CompatibleColumns` | apps/api/internal/layout/reconstruct.go:253-263 | as many columns, each within the tolerance |
| `Layout.HeadingText` | apps/api/internal/layout/reconstruct.go:416-454 | the scan over the text decides: short, no list item, no pipe, no sentence mark but one final full stop, at least one letter |
| `Outline.HeadingIff` | apps/api/internal/layout/reconstruct.go:416-454 | a text looks like a heading exactly when it is one to 80 bytes long once trimmed, has none of the parts of a list item, no pipe, question or exclamation mark, no full stop before its end, and a letter |
| `Reconstruct.CollectListRun` | apps/api/internal/layout/reconstruct.go:69-108 | the longest run of items of the kind of the first, each stripped of its marker |
| `Reconstruct.CollectPipeTableRun` | apps/api/internal/layout/reconstruct.go:110-138 | the longest run of lines of one width and its rows, separator lines left out |
| `Reconstruct.CollectSpaceTableRun` | apps/api/internal/layout/reconstruct.go:140-163 | the longest run of lines of one width and its rows |
| `Reconstruct.TakeSameYRow` | apps/api/internal/layout/reconstruct.go:223-251 | the blocks of one visual row |
| `Reconstruct.CollectGeometricTableRun` | apps/api/internal/layout/reconstruct.go:188-221 | the aligned rows, at least two of them |
| `Reconstruct.BuildTableBlockFromRows` | apps/api/internal/layout/reconstruct.go:350-379 | the table over the rows, its boxes and confidences taken from its cells |
| `Reconstruct.NextBlock` | apps/api/internal/layout/reconstruct.go:24-50 | one turn of the loop: the recognisers in their order of precedence |
| `Reconstruct.ReconstructListsAndTables` | apps/api/internal/layout/reconstruct.go:19-53 | the page after grouping is that of the segmentation below |
| `Segmentation.TableRunIff` | apps/api/internal/layout/reconstruct.go:110-163 | a table is recognised exactly when the rest of the page starts with two rows of cells of one width |
| `Segmentation.GeoRunIff` | apps/api/internal/layout/reconstruct.go:188-251 | a geometric table is recognised exactly when the rest of the page starts with two visual rows of one width whose centres lie within 12 |
| `Segmentation.SegmentFound` | apps/api/internal/layout/reconstruct.go:19-53 | each turn takes a maximal list run, a table of at least two rows of one width of at least two, all maximal visual rows aligned with the first with centres within 12, or one block that starts none of these |
| `Segmentation.PageIsSegmented` | apps/api/internal/layout/reconstruct.go:19-53 | the page is cut into consecutive non-empty segments covering it once and in order, one output block each |
| `Segmentation.LayoutTablesRectangular` | apps/api/internal/layout/reconstruct.go:319-379 | layout tables have at least two rows, all of one width of at least two, with the texts of their lines |
| `Segmentation.SegmentKeepsInk` | apps/api/internal/layout/reconstruct.go:305-379 | a block says what its sources say, list markers, cell separators and separator lines apart |
| `Segmentation.PageKeepsInk` | apps/api/internal/layout/reconstruct.go:19-53 | so does the whole page |
| `Segmentation.SkippedIsRule` | apps/api/internal/layout/reconstruct.go:290-303 | a skipped line holds nothing but dashes, colons, pipes and white space |
| `Layout.NumberedConsecutively` | apps/api/internal/layout/geometric.go:60-66 | numbering is consecutive in pre-order |
| `Layout.GeometricProvider.AssignChildReadingOrder` | apps/api/internal/layout/geometric.go:60-66 | the recursive numbering of the children |
| `Layout.GeometricProvider.NumberBlocks` | apps/api/internal/layout/geometric.go:47-52 | the numbering loop over a page |
| `Layout.GeometricProvider.Analyze` | apps/api/internal/layout/geometric.go:26-58 | sorting, headings, grouping and numbering of every page in turn, for any sort |
| `Outline.AnalyzedOutline` | apps/api/internal/layout/geometric.go:26-58 | analysis leaves a page as it is but for its blocks: put in order, exactly the paragraphs that look like headings become headings, and the page is cut into segments; a block of its own keeps id, text, type, box, confidence, language and children, an item all of its line but marker and type, a cell the text of its line or all of its block, and lists, tables and rows have the least box, the least confidence and the attributes of their kind |
| `ReadingOrder.BandsSorted` | apps/api/internal/layout/geometric.go:33-39 | where being within 2 in height is transitive, any arrangement with no neighbours the wrong way round has all pairs the right way round: bands by falling y2, each left to right |
| `ReadingOrder.BandsStayTogether` | apps/api/internal/layout/geometric.go:33-39 | no band is broken up by blocks of another |
| `ReadingOrder.ArrangedIffNoCircle` | apps/api/internal/layout/geometric.go:33-39 | a page can be arranged with every pair the right way round exactly when the comparison goes in no circle on it |
| `ReadingOrder.BandsHaveNoCircle` | apps/api/internal/layout/geometric.go:33-39 | where being within 2 is transitive it goes in none |
| `ReadingOrder.CircleHappens` | apps/api/internal/layout/geometric.go:33-39 | there are pages on which it does |
| `ReadingOrder.ExtractedTopDown` | apps/api/internal/pdfx/extract.go:155-177 | extraction lists the lines of a page from the top down |
| `ReadingOrder.ExtractedReadBottomUp` | apps/api/internal/layout/geometric.go:33-39 | sorted, the blocks of an extracted page come from its lowest line up, each line left to right |
| `ReadingOrder.LayoutTurnsPageOver` | apps/api/internal/layout/geometric.go:33-39 | of two blocks on different lines the one extracted later comes first after sorting |
| `Postprocess.CleanBlock` | apps/api/internal/postprocess/cdom.go:38-70 | one block trimmed and pruned |
| `Postprocess.Clean` | apps/api/internal/postprocess/cdom.go:17-36 | every page cleaned, the provenance noted |
| `Postprocess.CleanIdempotent` | apps/api/internal/postprocess/cdom.go:38-70 | cleaning twice is cleaning once, and leaves no empty paragraph, list, table or row at any depth |
| `Preservation.UnionIsLeast` | apps/api/internal/layout/reconstruct.go:381-401 | the union is the least box around its blocks |
| `Preservation.MinIsLeast` | apps/api/internal/layout/reconstruct.go:403-414 | the minimum is the least confidence |
| `Preservation.NormalizationCannotFail` | apps/api/internal/orchestrator/engine.go:270-288 | a document valid before layout is valid after layout and clean-up, whatever the sort does |
| `Preservation.ReadingOrderComplete` | apps/api/internal/layout/geometric.go:30-66 | after layout the reading order is 1, ..., N in pre-order over all pages |
| `Preservation.ReadingOrderAscends` | apps/api/internal/postprocess/cdom.go:17-70 | after clean-up it is strictly ascending |
| `Preservation.ExporterSortIdentity` | apps/api/internal/export/export.go:63-70 | the exporter's sort leaves every page as it is |
| `Preservation.FlattenBlocks` | apps/web/src/features/documents/DocumentViewerPage.tsx:19-24 | pushes the blocks in pre-order |
| `Preservation.ViewerSortIdentity` | apps/web/src/features/documents/DocumentViewerPage.tsx:83-89 | the viewer's sort leaves the flattened list as it is |
| `BlockIds.NameInjective` | apps/api/internal/layout/reconstruct.go:305-379 | a block name tells its page and its shape: the six name shapes are disjoint and their numbers can be read back |
| `BlockIds.RebuiltIds` | apps/api/internal/layout/reconstruct.go:19-53 | the names of a regrouped page are distinct: those of its sources, and new ones by output number |
| `BlockIds.BlockIdsDistinct` | apps/api/internal/layout/reconstruct.go:19-53 | over the whole document no two blocks share an id, after layout and after clean-up |
| `BlockIds.ExtractedSource` | apps/api/internal/pdfx/extract.go:298-318 | digital and mixed documents meet its condition |
| `BlockIds.ScannedSource` | apps/api/internal/orchestrator/engine.go:401-418 | so do scanned ones |
| `Export.WriteTable` | apps/api/internal/export/export.go:158-199 | what the table printer writes |
| `Export.WriteBlock` | apps/api/internal/export/export.go:78-156 | what a block writes, children included |
| `Export.MarkdownExporter.Export` | apps/api/internal/export/export.go:58-76 | an invalid document is refused, any other printed page by page |
| `ReadBack.HeadingReadsBack` | apps/api/internal/export/export.go:80-91 | one line of as many hashes as the depth says, never more than six, and the trimmed text |
| `ReadBack.QuoteReadsBack` | apps/api/internal/export/export.go:97-103 | every line of a quote is marked, and without the marks they are the quoted text |
| `ReadBack.CodeReadsBack` | apps/api/internal/export/export.go:104-110 | between its fences a code block has the lines of its text |
| `ReadBack.ParagraphReadsBack` | apps/api/internal/export/export.go:92-96 | the lines of the trimmed text and two empty ones; a blank paragraph is nothing |
| `ReadBack.FormulaReadsBack` | apps/api/internal/export/export.go:142-143 | the trimmed text between two lines of dollar signs |
| `ReadBack.ImageReadsBack` | apps/api/internal/export/export.go:128-139 | the alternative text and the asset, each empty unless it is a text |
| `ReadBack.BreakReadsBack` | apps/api/internal/export/export.go:140-141 | a rule between empty lines |
| `ReadBack.ItemReadsBack` | apps/api/internal/export/export.go:115-125 | two spaces for every level, the marker of its kind and the trimmed text on one line |
| `ReadBack.PrintedNested` | apps/api/internal/export/export.go:150-155 | a block is followed by its children, one level deeper |
| `ReadBack.PrintedJoins` | apps/api/internal/export/export.go:67-69 | blocks are printed one after the other |
| `ReadBack.PagesApart` | apps/api/internal/export/export.go:71-73 | between two pages stands a rule |
| `ReadBack.OnePage` | apps/api/internal/export/export.go:63-70 | a page is its blocks |
| `Words.PrintedHolds` | apps/api/internal/export/export.go:78-156 | whatever is printed of a forest holds the visible text of its blocks, of tables that of the cells as far as the first row is wide, in pre-order |
| `Words.CleanKeepsWords` | apps/api/internal/postprocess/cdom.go:38-70 | clean-up takes away no visible character of a forest whose lists, tables and rows have no text of their own |
| `Words.CleanKeepsFields` | apps/api/internal/postprocess/cdom.go:38-70 | what clean-up leaves is as it was, but for its trimmed text and its own children |
| `Words.PrunedIff` | apps/api/internal/postprocess/cdom.go:38-70 | a block goes exactly when it has no child left and is a list, a table, a row, or a text block that is blank |
| `PipeRoundTrip.CleanedAppend` | apps/api/internal/postprocess/cdom.go:38-70 | one block at a time |
| `Words.HeadKept` | apps/api/internal/orchestrator/engine.go:270-288 | layout and clean-up leave the head of a document as it is and note their names and versions |
| `Words.ExportHoldsWords` | apps/api/internal/export/export.go:58-76 | the export of a normalized document holds the visible text of all its printed blocks, page by page in pre-order |
| `Export.ExportFollowsReadingOrder` | apps/api/internal/export/export.go:58-76 | a normalized document is valid and printed in its stored order |
| `RoundTrip.CellReadsBack` | apps/api/internal/export/export.go:201-205 | an escaped cell between its bars reads back as its trimmed text, newlines as spaces |
| `RoundTrip.EscapingLossless` | apps/api/internal/export/export.go:158-205 | read by section 4.10 of the GitHub Flavored Markdown Spec, every printed line gives back its row's texts, padded or cut to the width of the first row |
| `RoundTrip.LayoutTablesPrintWhole` | apps/api/internal/export/export.go:158-199 | tables made by layout survive numbering and clean-up and print without padding or cutting |
| `PipeRoundTrip.PrintedTableReadBack` | apps/api/internal/layout/reconstruct.go:110-138 | fed back, the printed lines give the same rows, the rule skipped, all lines consumed but the blank ones |
| `PipeRoundTrip.PipeTableRoundTrip` | apps/api/internal/export/export.go:158-199 | parse, print, parse, clean is parse: a table found in pipe text without newlines comes back as exactly the same table and nothing else |
| `ListRoundTrip.MadeItemsOk` | apps/api/internal/layout/reconstruct.go:80-105 | every non-empty item that layout makes meets the condition of the next row |
| `ListRoundTrip.PrintedListReadBack` | apps/api/internal/export/export.go:111-125 | a printed list, fed back, is one list of the same kind with the same texts |
| `Extract.GroupByHeight` | apps/api/internal/pdfx/extract.go:159-177 | first-fit grouping into lines |
| `Extract.EveryGlyphOnOneLine` | apps/api/internal/pdfx/extract.go:159-177 | every glyph is on exactly one line, within 2.0 of its height, and lines are more than 2.0 apart |
| `Extract.CutLine` | apps/api/internal/pdfx/extract.go:179-250 | the segments of a line, blank ones dropped |
| `Extract.GroupIntoLines` | apps/api/internal/pdfx/extract.go:155-252 | the text blocks of a page |
| `Extract.LineBlocksApart` | apps/api/internal/pdfx/extract.go:179-250 | the blocks of a line are left to right with more than 18 between any two |
| `Extract.LineSaysAll` | apps/api/internal/pdfx/extract.go:179-250 | no visible character of a line is lost or moved |
| `PageWords.LineSpelled` | apps/api/internal/pdfx/extract.go:179-250 | two neighbouring glyphs are in one segment exactly when the gap is no wide one, and a space stands between them exactly when it is that of a word |
| `PageWords.LineBlocksSpelled` | apps/api/internal/pdfx/extract.go:179-250 | the blocks of a line are those segments, trimmed, the blank ones dropped, with their places and largest font |
| `Extract.BlocksHaveSizes` | apps/api/internal/pdfx/extract.go:198-210 | glyphs of non-negative width give blocks of non-negative width and positive height |
| `Pages.ExtractPage` | apps/api/internal/pdfx/extract.go:113-136 | a page: its size, its blocks, its character count and language |
| `Pages.LanguageOf` | apps/api/internal/pdfx/extract.go:254-266 | vi as soon as a character is beyond U+00FF, und without blocks, en otherwise |
| `PageWords.ExtractedPage` | apps/api/internal/pdfx/extract.go:113-153 | number, size (US letter without an area), character count and language of an extracted page, told by its characters |
| `Pages.Classify` | apps/api/internal/pdfx/extract.go:276-295 | digital when no page is below the threshold, scanned when all of at least one are, mixed otherwise |
| `Pages.ToCdomBlocks` | apps/api/internal/pdfx/extract.go:298-318 | boxes flipped to grow downwards, numbers and names consecutive |
| `Pages.PagesFromExtract` | apps/api/internal/orchestrator/engine.go:323-338 | the pages of a digital document |
| `Pages.FillMixedPages` | apps/api/internal/orchestrator/engine.go:340-384 | pages below the threshold become one OCR block each; a page asked for without an answer is an error |
| `Pages.OcrAllPages` | apps/api/internal/orchestrator/engine.go:386-419 | every page becomes one OCR block; a page without an answer is an error |
| `PageWords.DigitalPageSays` | apps/api/internal/pdfx/extract.go:298-318 | a page of a digital or mixed document not read by OCR has exactly the extracted texts, in order, with the page's language and their confidences, headings exactly from font size 16 on |
| `PageWords.OcrPageSays` | apps/api/internal/orchestrator/engine.go:340-384 | a page of a mixed document read by OCR has one block with the text, language and confidence that OCR returned |
| `PageWords.ScannedPageSays` | apps/api/internal/orchestrator/engine.go:386-419 | so has every page of a scanned document |
| `PageWords.PageSaysItsGlyphs` | apps/api/internal/orchestrator/engine.go:323-338 | a page not read by OCR says what its glyphs say, line by line |
| `Pages.ExtractedOrderAscends` | apps/api/internal/orchestrator/engine.go:340-384 | reading order ascends over the document as extracted, digital or mixed |
| `Pages.GlyphPageSized` | apps/api/internal/pdfx/extract.go:113-153 | a page of glyphs of non-negative width is well sized |
| `Scans.BodyNotBlank` | apps/api/internal/layout/reconstruct.go:12-15 | the body of a list item in a text is not blank, so clean-up never prunes the item of a page read by OCR |
| `Scans.NormalizesIffPagesOk` | apps/api/internal/orchestrator/engine.go:270-288 | with its header in order a document passes the engine's validation exactly when each page, analysed and cleaned, is valid |
| `Scans.MixedNormalizesIff` | apps/api/internal/orchestrator/engine.go:340-384 | a mixed document of well-sized pages passes the validation after layout and clean-up exactly when every page read by OCR whose text is not blank is at least 144 wide and high and its confidence lies in [0, 1] |
| `Scans.ScannedNormalizesIff` | apps/api/internal/orchestrator/engine.go:386-419 | so does a scanned document, of its pages |
| `Scans.NarrowScanFails` | apps/api/internal/orchestrator/engine.go:401-418 | a page 100 wide with the text x fails, and with a blank text does not |
| `Pages.DigitalDocumentsNormalize` | apps/api/internal/orchestrator/engine.go:235-288 | a digital PDF whose glyphs have non-negative widths cannot fail normalization |
| `RateLimiter.RateLimiter.constructor` | apps/api/internal/middleware/middleware.go:85-98 | 120 a minute and a burst of 30 unless configured |
| `RateLimiter.RateLimiter.Allow` | apps/api/internal/middleware/middleware.go:117-137 | one step of the bucket of the key |
| `RateLimiter.TokensInRange` | apps/api/internal/middleware/middleware.go:117-137 | tokens stay between 0 and the burst |
| `RateLimiter.AllowedIffEveryWindowFits` | apps/api/internal/middleware/middleware.go:117-137 | a request is let through if and only if no window of the client's past would then hold more than burst + rate * length |
| `RateLimiter.WindowBound` | apps/api/internal/middleware/middleware.go:117-137 | among any clients' requests, a window of length d lets through at most burst + rate * d of one client |
| `RateLimiter.SpacedNeverRefused` | apps/api/internal/middleware/middleware.go:117-137 | a client that waits 1 / rate between requests is never refused |
| `RateLimiter.OthersDoNotMatter` | apps/api/internal/middleware/middleware.go:117-137 | the bucket of a client depends on its own requests only |
| `Quota.MemoryStore.Consume` | apps/api/internal/infrastructure/memory/quota.go:20-29 | one unit unless the limit is reached |
| `Quota.MemoryStore.Rollback` | apps/api/internal/infrastructure/memory/quota.go:31-38 | one unit back, never below zero |
| `Quota.MemoryStore.Peek` | apps/api/internal/infrastructure/memory/quota.go:40-49 | used and remaining, never below zero |
| `Quota.RedisStore.Consume` | apps/api/internal/infrastructure/redis/quota.go:33-46 | the script and the reading of its reply |
| `Quota.RedisStore.Rollback` | apps/api/internal/infrastructure/redis/quota.go:48-63 | the decrement and the reset of a negative counter |
| `Quota.RedisStore.Peek` | apps/api/internal/infrastructure/redis/quota.go:65-79 | used and remaining; a missing key answers the limit itself, even a negative one |
| `Quota.QuotaConserved` | apps/api/internal/api/server.go:263-288 | for either store and any interleaving of uploads each counter is what is accepted, in flight or lost, and never above the limit |
| `Quota.NeverOverQuota` | apps/api/internal/api/server.go:263-288 | no subject gets more uploads accepted than its limit |
| `Quota.ReplyTells` | apps/api/internal/infrastructure/memory/quota.go:20-29 | by either store and after any run a request is refused exactly when its subject holds as many units as its limit, and otherwise told how many are left once it holds one |
| `Quota.GivenBack` | apps/api/internal/infrastructure/memory/quota.go:31-38 | by either store a failed upload lowers the counter of its subject by one and no other |
| `Quota.StoresAgree` | apps/api/internal/infrastructure/redis/quota.go:48-63 | the two stores give every request the same answer and hold the same numbers, and the reset branch of Redis is never reached |
| `Sse.SplitResumes` | apps/web/src/services/api/client.ts:155-157 | splitting with a carried remainder is splitting the whole |
| `Sse.ReadBlock` | apps/web/src/services/api/client.ts:159-164 | type and data of one block |
| `Sse.BlockIs` | apps/web/src/services/api/client.ts:159-164 | the type is what the last event line says, and message without one; the data what the data lines hold, one after the other |
| `Sse.Subscribe` | apps/web/src/services/api/client.ts:149-174 | what is handed out after any chunks is what the whole text so far holds |
| `Sse.ParseUndoesBody` | apps/api/internal/api/server.go:426-427 | parsing a framed message gives it back |
| `Sse.ClientReadsFrames` | apps/web/src/services/api/client.ts:149-174 | for every chunking of the stream, or of any part of it, exactly the complete frames come out, in order |
| `Sse.JobEvents` | apps/api/internal/api/server.go:396-466 | what is sent for what is read |
| `Sse.StreamIsChanges` | apps/api/internal/api/server.go:438-465 | every change seen once and in order, then one final event if and only if the job was seen to be over |
| `Sse.ClientHearsChanges` | apps/web/src/services/api/client.ts:149-174 | from the reads of the server to the callback of the client, for every chunking: a "progress" with the whole reading for the first and every one whose status, stage or progress is new, in order, and then a "done" with the last exactly when the job was seen completed, failed or cancelled |
| `Sse.ClientHearsError` | apps/api/internal/api/server.go:396-466 | a first read that fails is all that the client hears, as an "error" |
| `Preview.EscapeStep` | apps/web/src/features/editor/MarkdownEditorPage.tsx:6-12 | the four replacements in sequence replace every character once |
| `Preview.EscapedPiece` | apps/web/src/features/editor/MarkdownEditorPage.tsx:6-12 | escaped text opens and closes no tag and reads back as itself |
| `Preview.BulletIs` | apps/web/src/features/editor/MarkdownEditorPage.tsx:41-48 | the bullet lines are those of an indentation, a dash or star, white space and an item, and the item is what is left |
| `Preview.ElementsRead` | apps/web/src/features/editor/MarkdownEditorPage.tsx:14-61 | the reader of elements finds exactly the elements that some events spell |
| `Preview.AheadIsElements` | apps/web/src/features/editor/MarkdownEditorPage.tsx:21-60 | what the lines are written as, one by one, spells the elements of the document |
| `Preview.RenderMarkdownSafe` | apps/web/src/features/editor/MarkdownEditorPage.tsx:14-61 | for every input the output is balanced and nested, and read back it has exactly the elements of the document: h1, h2 or h3 by the number of hashes, a p for any other line and a break for a blank one, one ul for consecutive bullets with its items, code for the lines between fences; it shows exactly the text of the lines |

## Left out

- Authentication, OAuth, guest cookies, CORS, security headers, configuration, logging and metrics.
- PDF parsing, DOCX writing, JSON encoding and the text that OCR returns: functions or open outcomes.
- Postgres, MinIO, Redis and RabbitMQ as transports; only their atomic steps are modelled.
- The progress mirror (`ProgressStore`) that GetJob overlays on the job row, and the observer hooks.
- Stored content types, file names, checksums and time stamps of rows, except the creation time that the sweeper and the listing use.
- Job listings by creation time (`LatestByDocument`) and paging of artifacts in the API.
- The OCR worker and its PDF cache.
- Aliasing of the attribute map between a list item and the block it was made from; a nil attribute map and an empty one are one value.
- Decoding of UTF-8 across chunk borders in the event client: chunks are decoded text. JSON parsing there is left to the callback.
- The comparison that detects changes in the event stream is on the three values, not on their joined text.
- Document status after a crash between the last two updates of a completed Run: it stays processing.
- Artifact uniqueness when two Runs of one document overlap, and the size field of a markdown row between the two writes of a save: neither holds in the code.
- Orphaned objects, put before a crash and never given a row: a deletion does not find them unless a later Run gives the same key a row.
- Sse.Subscribe: hands out type and data; choosing the callback's shape by the parsed data is not modelled.
- Engine.Worker.OcrPageByPage: takes the finished pages in the order in which they finish; the goroutines behind it are `OcrFanout`.
- Quota.RedisStore.Rollback: is stated for a rollback that nothing comes between; the interleaved form, with the reset as a step of its own, is the `Redis` machine of `Quota`.
