# Video processing service: orchestration core in Dafny

This project models the orchestration core of a small video processing service (`app.py`).
It covers how a submitted job moves through its record store and cancellation registry.
It covers how the background worker `process_video_background` picks and runs its stages, reports progress, honours cancellation and handles its temporary files.
It also covers how the retention manager `cleanup_old_videos` chooses which videos to delete.

The modules follow the program's parts:

- `Common`: option/result values, Python truthiness, substring search, ASCII lower-casing, `rfind`, `str()` of integers, and `repr` of a text, which Python's `float` puts in its error message.
- `Paths`: `os.path.join`, `os.path.basename` and the extension part of `os.path.splitext`.
- `Uploads`:
  - `allowed_file`;
  - the folder names;
  - the names under which an upload (`<id>_<name>`) and its result (`processed_<id>_<name>`) are stored.
- `Jobs`: the in-memory record store `job_storage`, the registry `active_jobs` (one cancel flag per job) and the realtime messages.
  - Each operation is a function on a `StoreState` value.
  - The class `JobStore` holds the same data in mutable fields. Its methods are proved to match those functions.
  - The `progress_update` and `job_completed` messages are recorded as an append-only event log.
- `Files`: the files the service touches, as a path-to-size map in the class `FileSystem`, and `cleanup_temp_files`.
- `Stages`: the stage plan.
  - From the form options and the parsed numbers it fixes the ffmpeg filter graph (transformation, `eq`, `setpts`) and the route: stream copy, direct encode, or the per-frame path with an optional intermediate file and speed pass.
  - It also holds the frame-loop progress formula.
- `Retention`: `cleanup_old_videos`.
  - The protected names come from the registry and the records.
  - Each folder listing is filtered: not hidden, a video extension, a regular file, not related to an active name.
  - The rest is stably sorted newest first, and everything after the first `max_files` is deleted.
- `Pipeline`: `process_video_background` as a method on a `JobStore` and a `FileSystem`.
  - The method is split into one method per stage.
  - Each stage keeps an invariant: other jobs are untouched, files outside the run's own paths are unchanged, every temporary file created is tracked, and the reports seen so far are in order.
  - What the engines return, what the capture reads and what the float parser yields are inputs (`Externals`).
  - A cancellation request is a single `cancel_job` call. It lands just before the run's `t`-th step, where a step is a checkpoint or a store call.
  - Outcome functions (`StartOutcome`, `PrepassOutcome`, `OpenOutcome`, `LoopOutcome`, `EncodeOutcome`, `SpeedOutcome`, `DirectOutcome`, `CompleteOutcome`, up to `RunOutcome`) compute, from the inputs alone, how each stage ends: at which step the run goes on, or with which exit and error text it stops. Each stage method promises exactly the exit its outcome function gives.
- `Runs`: lemmas about `RunOutcome`: a request can only turn the exit into a stop, a run with no request never stops, a run whose engine calls all succeed completes, and which error a failing stage leaves.

Behaviours of the code a reader might not expect. The model follows the code:

- The record's status is never set to `processing`. Only the progress messages carry that word. A record stays `queued` until a terminal call (app.py:273, 179).
- Temporary files are not removed on most failure exits. These include the mux error, a capture or writer that does not open, and the final encode errors, which leave the muxed file or the OpenCV output behind (app.py:386-388, 397-399, 417-420, 496-501). Only a stop at a checkpoint, success, or the generic exception handler removes them. `ProcessVideoBackground` therefore promises `TempsGone` only for stopped and completed runs.
- A terminal record is not protected. After a cancellation, later `update_job_progress` calls overwrite progress and message (`Jobs.CancelledPersists`). A cancellation during completion is overwritten by `complete_job` (`Jobs.CompletionOverwritesCancellation`, `Pipeline.CompleteRun`).
- `create_job` has no duplicate check: it replaces an existing record (`Jobs.StoreCreate`).
- The video-only intermediate `very_temp_v_<id>.mkv` (app.py:356) is the one file of a run not named after the job's file. A cleanup that runs while a job is in its ffmpeg pass can therefore delete it (`Retention.VideoOnlyTempUnprotected`).
- There is no cancellation checkpoint around the audio mux. The checkpoints are at app.py:269, 284, 427 and 552.
- The speed is not validated as positive. A zero speed fails only through the generic handler, with Python's division message (`Stages.Plan`, `Pipeline.SpeedStage`).
- Stage A applies for one of the seven named transformations, not for any transformation other than `none`. A brightness or contrast that does not parse is ignored (`Stages.PassAppliedIff`).
- Frame progress is not capped at 75. A container that reports fewer frames than it holds drives it past 100 (`Stages.FrameProgressOvershoot`). Progress is in order only while the frame total holds (`Pipeline.ProcessVideoBackground`).

In the `Pipeline` rows:

- A stage *ends* the run when it returns a failure or a stop (`Ended`). Other jobs and every file outside the run's own paths are then untouched.
- A failure leaves the record failed with its error and the job out of the registry.
- A stop leaves the cancel flag set, set before the run or by the request, and no temporary file the run created.
- *In order* means the progress values the run reported never go down.
- A step is a checkpoint or a store call; `t` counts them, and a request landing before step `t` is seen by the first checkpoint after it.

## Model

| member | source | states |
|---|---|---|
| Common.Repr | app.py:277 | the text appears between two equal quotes: a double quote when it holds a single quote and no double quote, otherwise a single quote |
| Common.ReprRoundTrip | app.py:277 | undoing the escapes between the quotes gives back the text, so the message names the speed text exactly |
| Common.ReprPlain | app.py:277 | a text with no single quote, backslash or control character is written between single quotes as it is |
| Uploads.AllowedFileByExtension | app.py:132-134 | a name `stem.ext` whose `ext` has no dot is accepted exactly when the lower-cased `ext` is mp4, avi, mov or mkv, whatever the stem |
| Uploads.NoDotRejected | app.py:132-134 | a name without a dot is never accepted |
| Uploads.InputFilenameInjective | app.py:579-580 | with underscore-free job ids, the stored upload name determines both the job id and the client's file name |
| Uploads.OutputFilenameInjective | app.py:588 | the same for the result name `processed_<id>_<name>` |
| Uploads.UploadExtension | app.py:580-581 | the `splitext` extension of the stored upload name is the extension of the client's file name, from its last dot |
| Paths.BasenameOfJoin | app.py:556 | `basename` gives back a separator-free name joined onto a folder |
| Paths.JoinInjective | app.py:589 | joining onto a fixed folder is injective on relative names |
| Paths.SplitExt | app.py:73 | the extension is empty or a dot-led suffix of the name, with no dot or separator after its first character |
| Paths.SplitExtOfPlainName | app.py:73 | for a separator-free name not starting with a dot, the extension runs from the last dot to the end |
| Jobs.JobStore.constructor | app.py:26-29 | the store, the registry and the message log start empty |
| Jobs.StoreCreate | app.py:137-156 | a queued record with progress 0, the queued message, no output and no error, stored under its id and replacing any record there; other records, the registry and the messages unchanged |
| Jobs.JobStore.CreateJob | app.py:137-156 | the store becomes `StoreCreate` of the old store, and the new record is returned |
| Jobs.StoreRegister | app.py:613-617 | a fresh, unset cancel flag for the id; other entries and the records unchanged |
| Jobs.JobStore.Register | app.py:613-617 | the store becomes `StoreRegister` of the old store |
| Jobs.StoreUpdateProgress | app.py:158-180 | on a known id only progress, message and (when given) status change; an unknown id changes no record; a `progress_update` is emitted either way, with status `processing` when none is given |
| Jobs.JobStore.UpdateJobProgress | app.py:158-180 | the store becomes `StoreUpdateProgress` of the old store |
| Jobs.StoreGet | app.py:182-188 | the record exactly when the id is known |
| Jobs.JobStore.GetJobStatus | app.py:182-188 | returns `StoreGet` of the current store |
| Jobs.StoreComplete | app.py:190-220 | status completed exactly when the output name is truthy, else failed; progress 100 or 0 to match; output name and error stored as given; the id leaves the registry; one `job_completed` emitted |
| Jobs.JobStore.CompleteJob | app.py:190-220 | the store becomes `StoreComplete` of the old store |
| Jobs.StoreCancel | app.py:222-254 | true exactly for a registered id, whose flag is then set (the entry stays) and whose record becomes cancelled with progress 0 and the fixed message and error; an unknown id changes nothing |
| Jobs.JobStore.CancelJob | app.py:222-254 | the store and the answer are `StoreCancel` of the old store |
| Jobs.ApplyAllWellKeyed | app.py:137-254 | any sequence of store calls keeps every record under its own id |
| Jobs.OtherJobsUntouched | app.py:137-254 | calls about other ids leave a job's record, registry entry and messages exactly as they were |
| Jobs.CancelledPersists | app.py:158-254 | after an accepted cancel, the record stays cancelled with the cancel error and the flag stays set through progress reports without a status, further cancels and calls about other jobs |
| Jobs.CompletionOverwritesCancellation | app.py:190-254 | a completion after a cancellation leaves a completed record with progress 100 and no error, out of the registry |
| Jobs.CancelNeedsRegistration | app.py:222-254 | cancelling an unregistered job changes nothing and answers false, whatever its record says |
| Files.FileSystem.Remove | app.py:35-36 | removing a path that exists deletes it; removing a missing path changes nothing |
| Files.FileSystem.CleanupTempFiles | app.py:31-38 | exactly the listed paths are gone afterwards and every other file is unchanged |
| Stages.TransformOp | app.py:293-314 | a filter exactly for the seven named transformations, never an `eq` or `setpts` |
| Stages.EqParams | app.py:319-331 | brightness is present (as b − 1.0) exactly when it parsed to b ≠ 1.0, contrast (as c) exactly when it parsed to c ≠ 1.0, and nothing else |
| Stages.Plan | app.py:337-340 | the plan fails exactly when the speed is folded into the graph and is zero |
| Stages.PassAppliedIff | app.py:291-340 | the ffmpeg pass applies exactly when the transformation is named, the `eq` map is not empty, or the filter is `none` and the speed is not 1.0 |
| Stages.RouteIff | app.py:345-535 | per-frame path exactly when a filter is selected; direct encode exactly without a filter but with the ffmpeg pass; stream copy exactly with neither; speed pass exactly on the per-frame path with speed ≠ 1.0; intermediate file exactly when the ffmpeg pass applies |
| Stages.StreamCopyIff | app.py:525-535 | a stream copy exactly when every option is neutral or ignored |
| Stages.GraphShape | app.py:293-340 | at most three filters in the order transformation, `eq`, `setpts`; the `eq` filter carries the non-empty parameters; `setpts` comes last with factor 1/speed |
| Stages.BlurOnly | app.py:345-350 | `blur` alone takes the per-frame path with no intermediate file and no speed pass |
| Stages.BlurWithSpeed | app.py:503-505 | `blur` with speed 2.0 adds the speed pass and no ffmpeg pass |
| Stages.SpeedWithoutFilter | app.py:338-340 | without a filter, speed 2.0 becomes a `setpts` of 0.5 in a direct encode |
| Stages.FrameProgress | app.py:457-460 | a report exactly at multiples of 30 frames with a positive total, at 45 plus the floor of the done share of 30 |
| Stages.FrameProgressBounds | app.py:458-459 | while the count stays within the total, reports lie in 45..75 |
| Stages.FrameProgressMonotone | app.py:458-459 | later reports of a loop are never lower |
| Stages.FrameProgressOvershoot | app.py:459 | with a total of 1 frame, the report at frame 30 is 945 |
| Retention.ActiveFilenames | app.py:47-56 | the names collected are each job's file name and `<id>_<file name>` over the registered jobs with a queued or processing record and a non-empty file name |
| Retention.IsRelated | app.py:80-84 | true exactly when some active name contains the file name or is contained in it |
| Retention.Candidates | app.py:66-88 | the candidates are exactly the listing entries that are visible regular files with a video extension and not related to an active name |
| Retention.InsertByAge | app.py:91 | inserting into a newest-first sequence keeps it newest-first and adds exactly that entry |
| Retention.SortNewestFirst | app.py:91 | the result is newest-first and a permutation of the input |
| Retention.SortStable | app.py:91 | entries with equal times keep their input order |
| Retention.SelectForDeletion | app.py:66-94 | the loop's selection equals `Doomed`, and every selected entry is a candidate from the listing |
| Retention.RetentionCounts | app.py:91-94 | exactly `min(max_files, candidates)` survive; survivors and deletions together are the candidates |
| Retention.RetentionOrder | app.py:91-94 | no deleted file is newer than any surviving one |
| Retention.RetentionSelection | app.py:66-94 | only candidates from the listing are deleted, with the counts and the order above |
| Retention.CandidatesStep | app.py:68-88 | each listing entry is appended to the candidates of the entries before it exactly when it is a candidate, so candidates keep the listing order |
| Retention.OwnFilesProtected | app.py:47-84 | five files of a protected job with file name `f` are never deleted: `<id>_f`, `processed_<id>_f`, `speed_adj_processed_<id>_f`, `temp_ffmpeg_f_<id>.mp4` and `temp_opencv_f_<id>.avi` |
| Retention.VideoOnlyTempUnprotected | app.py:47-88 | with job `j` queued for `a.mp4` as the only job, `very_temp_v_j.mkv` is a candidate and a folder that keeps no files deletes it |
| Retention.UploadIsVideo | app.py:73-75 | every upload `allowed_file` accepts is stored under a visible name with a video extension |
| Retention.AllowedIsVideoExtension | app.py:44 | every allowed upload extension with its dot is a video extension |
| Retention.RemoveEntries | app.py:96-104 | exactly the paths of the deleted entries are gone |
| Retention.AfterFolder | app.py:58-104 | cleaning one folder removes exactly its deleted entries' paths and keeps every other file with its size; a missing folder changes nothing |
| Retention.CleanFolder | app.py:59-104 | the files become `AfterFolder` of the old files |
| Retention.CleanupOldVideos | app.py:40-113 | the protected names are read once, then the upload folder and then the processed folder are cleaned |
| Pipeline.MaybeCancel | app.py:222-254 | the request, when it is due at step `t`, is applied as `cancel_job`, and otherwise nothing changes; the flag then reads as the request and the flag at the start say |
| Pipeline.Report | app.py:273 | as step `t`, a pending cancellation lands, then the progress report is applied without a status; other jobs stay untouched; a report not below the last keeps the reports in order |
| Pipeline.Checkpoint | app.py:269-271 | answers whether the flag was set at the start or a request landed before this step; when it is set, exactly the tracked temporary files are removed and no temporary file the run created is left; otherwise the files are unchanged |
| Pipeline.Fail | app.py:386-388 | a pending cancellation lands, then `complete_job` with the error: the run ends failed with exactly this error |
| Pipeline.StartRun | app.py:267-277 | the exit is `StartOutcome`: a stop exactly when the flag is set at the first checkpoint; otherwise, after the report at 5, a failure with `Unexpected error: could not convert string to float: ` and the speed text as `repr` writes it exactly when the speed does not parse; otherwise the run goes on at step 2 with the parsed speed, the files unchanged and the reports in order up to 5 |
| Pipeline.PrepareRun | app.py:283-316 | the exit is `PrepareOutcome`: a stop exactly when the flag is set at the second checkpoint; otherwise the run goes on three steps later, after the reports at 10 and 20, with the files unchanged |
| Pipeline.PlanRun | app.py:318-342 | a failure with `Unexpected error: ` and the plan's error exactly when `Plan` fails; otherwise the run goes on after the report at 30 with the plan `Plan` gives and the files unchanged |
| Pipeline.Mux | app.py:364-385 | the error is `MuxError`: none exactly when the mux succeeds, or the source has no audio and the video-only copy succeeds; otherwise the stderr of the call that failed; the muxed file holds what was written; the video-only file is removed in every case |
| Pipeline.StageA | app.py:350-388 | the exit is `PrepassOutcome` with a pass: `FFmpeg processing error: ` and the encode's stderr when the encode fails, or the same prefix and the mux error; otherwise the run goes on after the reports at 35 and 40 with both intermediate files tracked and the video-only file gone |
| Pipeline.Prepass | app.py:346-391 | the exit is `PrepassOutcome`: without an ffmpeg pass the run goes on at once with nothing tracked, reading the upload; with one it ends or goes on as `StageA` does, reading the muxed file |
| Pipeline.OpenCvOpen | app.py:393-420 | the exit is `OpenOutcome`: `Could not open video file: ` and the source when the capture does not open, `OpenCV VideoWriter failed to open` when the writer does not; otherwise the run goes on after the report at 45 with the OpenCV output created empty and tracked |
| Pipeline.OpenStages | app.py:345-420 | the exit is `OpenStagesOutcome`: the ffmpeg pass when there is one, then the opening of the capture and the writer |
| Pipeline.FrameStep | app.py:433-460 | the store becomes exactly the report of `FrameProgress` with `Processing frame <n>/<total>` after a pending cancellation when frame `n` is present and due a report, and is unchanged otherwise; the progress events it appends are `FrameReport`; while the frame total holds, the reports stay in order and within the progress bound |
| Pipeline.ReadStep | app.py:425-460 | one checkpoint and one read: it stops only where `LoopOutcome` stops, otherwise the rest of the loop is `LoopOutcome` from the next frame; the progress events it appends are the frame's `FrameReport` |
| Pipeline.ReadFrames | app.py:422-460 | stops exactly when `LoopOutcome` says so, which is at the first checkpoint that sees the flag; otherwise every frame is read, the written count is the number of frames that are not `None`, and the run goes on at the step `LoopOutcome` gives; the progress events appended are exactly `FrameReports` of the frames read; while the frame total holds, the reports stay in order and at most 75 |
| Pipeline.FrameLoop | app.py:425-463 | as `ReadFrames`; the files are unchanged unless the loop stops, and a stop removes exactly the tracked temporary files |
| Pipeline.OpenCvFrames | app.py:422-465 | the exit is `FramesOutcome`: a stop exactly when the loop stops; otherwise the run goes on after the report at 75 with the OpenCV output holding the bytes the writer wrote |
| Pipeline.FrameStages | app.py:345-465 | the exit is `FrameStagesOutcome`: the ffmpeg pass when there is one, then the OpenCV stage, tracking exactly the intermediate files and the OpenCV output |
| Pipeline.KeepEncoded | app.py:488-494 | the output is written with the encode's size; the OpenCV output, and the muxed file when there is one, are removed; no tracked file is left |
| Pipeline.FinalEncode | app.py:467-501 | the exit is `EncodeOutcome` of the files: `OpenCV processing failed to produce valid output` when the OpenCV output is missing or empty, `Final encoding error: ` and the stderr when the encode fails; otherwise the store is unchanged, no tracked file is left and the output holds the encode's size |
| Pipeline.SpeedStage | app.py:503-521 | the exit is `SpeedOutcome`: with speed 1.0 nothing changes and the run goes on at the output; a zero speed fails with `Unexpected error: float division by zero`; a failing pass fails with `Speed adjustment error: ` and its stderr; otherwise the run goes on after the report at 85 with the speed-adjusted file written and the output removed |
| Pipeline.EncodeAndSpeed | app.py:467-521 | the final encode, then the speed pass: a failure is the one `EncodeSpeedOutcome` gives, and otherwise what remains of the run is as `EncodeSpeedOutcome` says, from the speed-adjusted file exactly when the speed is not 1.0 |
| Pipeline.FramePathRun | app.py:345-521 | a failure or stop is the one `FrameRouteOutcome` gives; otherwise the run goes on with the reports in order up to 85, no tracked file left and the final file as above |
| Pipeline.DirectStage | app.py:523-538 | the exit is `DirectOutcome`: `FFmpeg processing error: ` and the stderr of a failing direct encode (when the ffmpeg pass applies), `Video copy error: ` and the stderr of a failing stream copy (otherwise); otherwise the run goes on after the report at 50 or 80 with the output holding its size |
| Pipeline.MarkCompleted | app.py:557 | a pending cancellation lands, then the report at 100 with status completed; the job stays registered and the reports stay in order |
| Pipeline.CompleteRun | app.py:558 | a pending cancellation lands, then `complete_job` with the name: the record is completed with that output name and no error, out of the registry, even when it had been cancelled |
| Pipeline.Finalize | app.py:540-558 | the exit is `FinalizeOutcome`: `Processed file not found` when the final file is missing, `Processed file is empty` when it is empty, a stop when the last checkpoint sees the flag, and otherwise completion with the final file's base name, no temporary file of the run left and the files unchanged by this stage |
| Pipeline.Begin | app.py:267-342 | a failure or stop is the exit `RunOutcome` gives; otherwise the run goes on with the parsed speed and the plan `Plan` gives, and `RouteOutcome` of that plan from the step reached is `RunOutcome` |
| Pipeline.FrameRoute | app.py:345-558 | the exit is `FrameRouteOutcome`; a completion leaves `FinalPath` present and not empty, its base name recorded and no temporary file; in order while the frame total holds |
| Pipeline.DirectRoute | app.py:523-558 | the exit is `DirectRouteOutcome`; a completion leaves the output present and not empty, its base name recorded and no temporary file; always in order |
| Pipeline.RunRegistered | app.py:264-567 | the exit is `RunOutcome` of the inputs and the store at the start; a failure, stop or completion leaves the state `Ended` or `Done` describes; in order while the frame total holds |
| Pipeline.PathsDistinct | app.py:352-508 | the output, the speed-adjusted output and the three temporary files are five different paths |
| Pipeline.FinishedName | app.py:504-556 | the stored output name is `processed_<id>_<name>`, with `speed_adj_` in front after a speed pass |
| Pipeline.ProcessVideoBackground | app.py:256-567 | an unregistered job is failed at once with the initialisation error and nothing else changes; a registered job's exit is `RunOutcome`; other jobs and files outside the run's paths are untouched; a failure leaves the failed record of its error; a stop happens only for a flag set before or by the request; completion leaves `FinalPath` present and not empty with its base name recorded; a stop or completion leaves no temporary file; while the frame total holds, progress never goes down |
| Runs.LoopRequestOnlyStops | app.py:425-460 | from any frame on, the frame loop with a request either stops or ends exactly as without the request |
| Runs.RequestOnlyStops | app.py:264-567 | a cancellation request either stops the run or leaves its exit exactly as it is without a request |
| Runs.LoopNeverStops | app.py:425-430 | with the flag clear at the start and no request, the frame loop always runs to the end of the stream |
| Runs.NeverStopsUnrequested | app.py:264-567 | with the flag clear at the start and no request, no checkpoint stops the run |
| Runs.CancelledBeforeStartStops | app.py:268-271 | a flag set before the run starts stops it |
| Runs.UnparsableSpeedAborts | app.py:264-567 | a speed text `float` rejects, with no quote, backslash or control character, fails the job with `Unexpected error: could not convert string to float: '<text>'` |
| Runs.FrameRouteCompletes | app.py:345-558 | on the per-frame route, with no request, a clear flag, a non-zero speed and every engine call succeeding, the run completes at the speed-adjusted file exactly when the speed is not 1.0, else at the output |
| Runs.DirectRouteCompletes | app.py:523-558 | on the route without a filter, with no request, a clear flag and every engine call succeeding, the run completes at the output |
| Runs.CompletesWhenAllSucceed | app.py:264-567 | with no request, a clear flag, a speed that parses to a non-zero number and every engine call succeeding, the run completes with the base name of `FinalPath` |
| Runs.DirectEncodeFailure | app.py:523-530 | without a filter and with a non-empty graph, a failing direct encode fails the job with `FFmpeg processing error: ` and the engine's stderr |

## Left out

- Redis: only the in-memory backend is modelled, the fallback the code uses when no Redis server answers.
- Flask routes, templates and file serving. Only the names `index` builds for an upload and its result are modelled.
- Timestamps (`created_at`, `completed_at`) and the thread handle stored in the registry.
- SocketIO: the emits are appended to an event log. There is no network.
- Threads:
  - the worker and the cancel request are interleaved as one `cancel_job` call that lands before a chosen step of the run;
  - cancels that land inside a store call, and several cancel requests, are not modelled.
- ffmpeg and OpenCV: each engine call is an input outcome, either the size of the file written or the stderr.
  - A failing engine call is taken to write nothing.
  - Pixel filters, frame contents, fps, frame size and codecs are not modelled.
  - The choice of audio source for the final encode (app.py:479-486) is not modelled, since it only shapes the encode the outcome stands for.
- The capture stays open for the whole frame loop (`while cap.isOpened()`), and a failed read ends the loop.
- Float parsing:
  - `float()` of speed, brightness and contrast are input values (`Option<real>`);
  - `str(speed)` in the speed message is an input text;
  - reals are exact, so IEEE rounding in `1/speed` and in `int(frame_count / total_frames * 30)` is not modelled;
  - only the division by zero error of a zero speed is modelled;
  - `float()` also accepts `nan`, `inf` and `infinity` in any case and with a sign, and these have no counterpart among the reals: a parse result is simply a real or `None`.
- Common.Repr: Python's `repr` also escapes the non-printable characters beyond ASCII, as `\x`, `\u` or `\U`; the model copies every character from 0x80 up as it is.
- `str.lower` is modelled on ASCII letters only.
- `cleanup_old_videos` runs after a successful job, after an upload and at startup. It is modelled as its own method (`Retention.CleanupOldVideos`), not as the last step of `ProcessVideoBackground`. The program's listings, modification times and `isfile` answers are inputs.
- Errors while removing a file are logged and skipped by the code. The model's removals always succeed.
- Retention.SortNewestFirst: the in-place `list.sort` is modelled as a stable insertion sort on a sequence value. It has the same result, but the update in place is not modelled.
- Pipeline.ProcessVideoBackground: does not model the generic exception handler for exceptions other than the ones named above (an unparseable speed, a zero speed). Other unexpected exceptions from the engines or the file system would need a model of those libraries.
