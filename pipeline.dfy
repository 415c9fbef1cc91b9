/**
 * The orchestrator `process_video_background`: one job run from its registry entry to
 * an exit, through progress reports, cancellation checkpoints, the ffmpeg and OpenCV
 * stages and the output validation, acting on the `JobStore` and the `FileSystem`.
 *
 * What the external engines, the capture device and the float parser return, and
 * when a cancellation request arrives, are inputs (`Externals`). A cancellation
 * request is one `cancel_job` call that lands just before the run's `t`-th step, a
 * step being a checkpoint or a call into the store.
 */
module Pipeline {
  import opened Common
  import opened Paths
  import opened Uploads
  import opened Jobs
  import opened Files
  import opened Stages

  /** The outcome of one ffmpeg `run()`: the size of the file it wrote, or the engine's stderr. */
  datatype RunResult = RunOk(size: nat) | RunErr(stderr: string)

  datatype Externals = Externals(
    cancelAt: Option<nat>,        // the step before which `cancel_job` is called, if ever
    speed: Option<real>,          // `float(speed)`, `None` when it raises
    speedText: string,            // `str()` of the parsed speed, as the speed message shows it
    brightness: Option<real>,     // `float(brightness)`, `None` when it raises
    contrast: Option<real>,       // `float(contrast)`, `None` when it raises
    stageA: RunResult,            // the ffmpeg pass into the video-only intermediate
    mux: RunResult,               // muxing the source audio back in
    muxNoAudio: RunResult,        // the video-only copy used when the source has no audio
    captureOpened: bool,          // `cap.isOpened()`
    totalFrames: int,             // `CAP_PROP_FRAME_COUNT`
    frames: seq<bool>,            // successive successful reads: a frame, or `None`
    writerOpened: bool,           // `out_cv.isOpened()`
    writerBytes: nat,             // size of the OpenCV output once released
    finalEncode: RunResult,
    speedPass: RunResult,
    directEncode: RunResult,
    streamCopy: RunResult)

  /** The paths of a run's temporary files and of its speed-adjusted output. */
  datatype WorkPaths = WorkPaths(tempFfmpeg: string, videoOnly: string, tempOpencv: string, speedAdjusted: string)

  /** Everything one run is started with. */
  datatype Run = Run(
    jobId: string,
    original: string,
    inputPath: string,
    outputPath: string,
    work: WorkPaths,
    options: FormOptions,
    ext: Externals)

  /** How a run ends. `Stopped` is the return at a checkpoint that saw the cancel flag, which writes no terminal state. */
  datatype Exit = NotInitialized | Aborted(error: string) | Finished(outputFilename: string) | Stopped

  const NotInitializedError := "Job cancellation system not initialized"
  const NoAudioMarkers: seq<string> := ["Stream map 'a' matches no streams", "Cannot select audio stream"]

  /** The mux failed only because the source has no audio track. */
  predicate NoAudio(stderr: string) {
    IsSubstring(NoAudioMarkers[0], stderr) || IsSubstring(NoAudioMarkers[1], stderr)
  }

  /** `temp_ffmpeg_<file name>_<id>.mp4`, the muxed output of the ffmpeg pass. */
  function TempFfmpegName(r: Run): (n: string)
    ensures |n| > 5 && n[0] == 't' && n[5] == 'f'
  {
    var n := "temp_ffmpeg_" + r.original + "_" + r.jobId + ".mp4";
    assert n[..12] == "temp_ffmpeg_";
    n
  }

  /** `very_temp_v_<id>.mkv`, the video-only output of the ffmpeg pass. */
  function VideoOnlyName(r: Run): (n: string)
    ensures |n| > 5 && n[0] == 'v'
  {
    var n := "very_temp_v_" + r.jobId + ".mkv";
    assert n[..12] == "very_temp_v_";
    n
  }

  /** `temp_opencv_<file name>_<id>.avi`, the output of the frame loop. */
  function TempOpencvName(r: Run): (n: string)
    ensures |n| > 5 && n[0] == 't' && n[5] == 'o'
  {
    var n := "temp_opencv_" + r.original + "_" + r.jobId + ".avi";
    assert n[..12] == "temp_opencv_";
    n
  }

  /** `speed_adj_<output name>`, the output of the speed pass. */
  function SpeedAdjustedName(r: Run): (n: string)
    ensures |n| > 5 && n[0] == 's'
  {
    var n := "speed_adj_" + Basename(r.outputPath);
    assert n[..10] == "speed_adj_";
    n
  }

  /** The work paths the orchestrator builds: the four names above, in the processed folder. */
  function WorkPathsFor(r: Run): WorkPaths {
    WorkPaths(Join(ProcessedFolder, TempFfmpegName(r)), Join(ProcessedFolder, VideoOnlyName(r)),
              Join(ProcessedFolder, TempOpencvName(r)), Join(ProcessedFolder, SpeedAdjustedName(r)))
  }

  function TempFfmpeg(r: Run): string {
    r.work.tempFfmpeg
  }

  function VideoOnlyTemp(r: Run): string {
    r.work.videoOnly
  }

  function TempOpencv(r: Run): string {
    r.work.tempOpencv
  }

  function SpeedAdjusted(r: Run): string {
    r.work.speedAdjusted
  }

  /** The temporary files a run may create. */
  function TempPaths(r: Run): set<string> {
    {TempFfmpeg(r), VideoOnlyTemp(r), TempOpencv(r)}
  }

  /** Every path a run may write or remove. */
  function Touched(r: Run): set<string> {
    TempPaths(r) + {r.outputPath, SpeedAdjusted(r)}
  }

  /** The run's store as it is once a cancellation request due before step `t` has landed. */
  function Arrive(r: Run, t: nat, s: StoreState): StoreState {
    if r.ext.cancelAt == Some(t) then StoreCancel(s, r.jobId).0 else s
  }

  /**
   * The cancel flag of the run's job before step `t`: set before the run started, or by
   * the request, when it is due before an earlier step. A checkpoint that is step `t`
   * reads `FlagBefore(r, s0, t + 1)`.
   */
  predicate FlagBefore(r: Run, s0: StoreState, t: nat) {
    (r.jobId in s0.active && s0.active[r.jobId]) || (r.ext.cancelAt.Some? && r.ext.cancelAt.value < t)
  }

  /** The store holds the flag `FlagBefore` gives before step `t`. */
  predicate FlagAt(r: Run, s0: StoreState, s: StoreState, t: nat) {
    r.jobId in s.active && s.active[r.jobId] == FlagBefore(r, s0, t)
  }

  /**
   * The run's output path is the one `index` builds, `processed_<id>_<file name>` in the
   * processed folder, and its work paths are the ones the orchestrator builds.
   */
  predicate WellFormed(r: Run) {
    && r.outputPath == Join(ProcessedFolder, OutputFilename(r.jobId, r.original))
    && r.work == WorkPathsFor(r)
  }

  /** The output, the speed-adjusted output and the three temporary files are five different paths. */
  predicate Distinct(r: Run) {
    && r.outputPath != TempFfmpeg(r) && r.outputPath != VideoOnlyTemp(r) && r.outputPath != TempOpencv(r)
    && SpeedAdjusted(r) != TempFfmpeg(r) && SpeedAdjusted(r) != VideoOnlyTemp(r) && SpeedAdjusted(r) != TempOpencv(r)
    && TempOpencv(r) != TempFfmpeg(r) && TempOpencv(r) != VideoOnlyTemp(r) && TempFfmpeg(r) != VideoOnlyTemp(r)
    && r.outputPath != SpeedAdjusted(r)
  }

  // ----- the store part of the invariant -----

  /** `e` extends `e0` with events about `id` only. */
  predicate Extends(e0: seq<Event>, e: seq<Event>, id: string) {
    |e0| <= |e| && e[..|e0|] == e0 && forall i :: |e0| <= i < |e| ==> e[i].jobId == id
  }

  /** Nothing of any other job changed: records, registry entries, events. */
  predicate Untouched(id: string, s0: StoreState, s: StoreState) {
    && s.jobs.Keys == s0.jobs.Keys
    && s.jobs - {id} == s0.jobs - {id}
    && s.active - {id} == s0.active - {id}
    && (id in s0.jobs ==> SameIdentity(s0.jobs[id], s.jobs[id]))
    && Extends(s0.events, s.events, id)
  }

  /** A flag set during the run came from the cancellation request, which left a cancelled record. */
  predicate CancelledByRequest(r: Run, s0: StoreState, s: StoreState) {
    var id := r.jobId;
    id in s0.active && id in s.active &&
    (s.active[id] && !s0.active[id] ==>
      r.ext.cancelAt.Some? &&
      (id in s.jobs ==> s.jobs[id].status == Cancelled && s.jobs[id].error == Some(CancelledError)))
  }

  /** While the run is between checkpoints: registered, isolated, and consistent about cancellation. */
  predicate Running(r: Run, s0: StoreState, s: StoreState) {
    Untouched(r.jobId, s0, s) && CancelledByRequest(r, s0, s)
  }

  /** The progress values of the progress events, in order. */
  function Reports(evs: seq<Event>): (r: seq<int>)
    ensures |r| <= |evs|
  {
    if evs == [] then []
    else
      var last := evs[|evs| - 1];
      Reports(evs[..|evs| - 1]) + (if last.ProgressUpdate? then [last.progress] else [])
  }

  predicate NonDecreasing(xs: seq<int>) {
    forall i, j :: 0 <= i < j < |xs| ==> xs[i] <= xs[j]
  }

  /** The progress this run reported so far never went down and never exceeded `level`. */
  predicate ReportedUpTo(e0: seq<Event>, e: seq<Event>, level: int) {
    |e0| <= |e| && NonDecreasing(Reports(e[|e0|..])) &&
    forall i :: 0 <= i < |Reports(e[|e0|..])| ==> Reports(e[|e0|..])[i] <= level
  }

  /** Appending an event keeps the run's events about its own job only. */
  lemma ExtendsAppend(e0: seq<Event>, e: seq<Event>, x: Event, id: string)
    requires Extends(e0, e, id) && x.jobId == id
    ensures Extends(e0, e + [x], id)
  {
    assert (e + [x])[..|e0|] == e[..|e0|];
  }

  /** A report at or above the level keeps the order; a completion event does not affect it. */
  lemma ReportedAppend(e0: seq<Event>, e: seq<Event>, x: Event, level: int)
    requires ReportedUpTo(e0, e, level)
    ensures x.ProgressUpdate? && level <= x.progress ==> ReportedUpTo(e0, e + [x], x.progress)
    ensures x.JobCompleted? ==> ReportedUpTo(e0, e + [x], level)
  {
    var e' := e + [x];
    assert e'[|e0|..] == e[|e0|..] + [x];
    assert (e[|e0|..] + [x])[..|e[|e0|..]|] == e[|e0|..];
  }

  lemma RunningAfterCancel(r: Run, s0: StoreState, s: StoreState)
    requires Running(r, s0, s) && r.ext.cancelAt.Some?
    ensures Running(r, s0, StoreCancel(s, r.jobId).0)
  {
    var c := StoreCancel(s, r.jobId).0;
    ExtendsAppend(s0.events, s.events, JobCompleted(r.jobId, Cancelled, None, Some(CancelledError)), r.jobId);
    assert c.active - {r.jobId} == s.active - {r.jobId};
  }

  lemma RunningAfterUpdate(r: Run, s0: StoreState, s: StoreState, p: int, msg: string)
    requires Running(r, s0, s)
    ensures Running(r, s0, StoreUpdateProgress(s, r.jobId, p, msg, None))
  {
    ExtendsAppend(s0.events, s.events, ProgressUpdate(r.jobId, p, msg, Processing), r.jobId);
  }

  /** The progress events among `evs`, in order. */
  function ProgressEvents(evs: seq<Event>): seq<Event> {
    if evs == [] then []
    else
      var last := evs[|evs| - 1];
      ProgressEvents(evs[..|evs| - 1]) + (if last.ProgressUpdate? then [last] else [])
  }

  lemma ProgressEventsSnoc(e: seq<Event>, x: Event)
    ensures ProgressEvents(e + [x]) == ProgressEvents(e) + (if x.ProgressUpdate? then [x] else [])
  {
    assert (e + [x])[..|e|] == e;
  }

  /** A cancellation landing adds no progress event to those appended since index `n`. */
  lemma ArriveProgress(r: Run, t: nat, s: StoreState, n: nat)
    requires n <= |s.events|
    ensures n <= |Arrive(r, t, s).events|
    ensures ProgressEvents(Arrive(r, t, s).events[n..]) == ProgressEvents(s.events[n..])
  {
    if r.ext.cancelAt == Some(t) && r.jobId in s.active {
      var x := JobCompleted(r.jobId, Cancelled, None, Some(CancelledError));
      assert Arrive(r, t, s).events[n..] == s.events[n..] + [x];
      ProgressEventsSnoc(s.events[n..], x);
    }
  }

  /** `update_job_progress` adds its one progress event to those appended since index `n`. */
  lemma UpdateProgress(s: StoreState, id: string, p: int, msg: string, n: nat)
    requires n <= |s.events|
    ensures n <= |StoreUpdateProgress(s, id, p, msg, None).events|
    ensures ProgressEvents(StoreUpdateProgress(s, id, p, msg, None).events[n..])
         == ProgressEvents(s.events[n..]) + [ProgressUpdate(id, p, msg, Processing)]
  {
    var x := ProgressUpdate(id, p, msg, Processing);
    assert StoreUpdateProgress(s, id, p, msg, None).events[n..] == s.events[n..] + [x];
    ProgressEventsSnoc(s.events[n..], x);
  }

  /** If a cancellation request lands before step `t`, it lands now. */
  method MaybeCancel(store: JobStore, r: Run, t: nat, ghost s0: StoreState, ghost level: int, ghost inOrder: bool)
    requires store.Valid() && Running(r, s0, store.Model())
    requires inOrder ==> ReportedUpTo(s0.events, store.events, level)
    modifies store
    ensures store.Valid() && Running(r, s0, store.Model())
    ensures inOrder ==> ReportedUpTo(s0.events, store.events, level)
    ensures store.Model() == Arrive(r, t, old(store.Model()))
    ensures FlagAt(r, s0, old(store.Model()), t) ==> FlagAt(r, s0, store.Model(), t + 1)
  {
    if r.ext.cancelAt == Some(t) {
      RunningAfterCancel(r, s0, store.Model());
      if inOrder {
        ReportedAppend(s0.events, store.events, JobCompleted(r.jobId, Cancelled, None, Some(CancelledError)), level);
      }
      var _ := store.CancelJob(r.jobId);
    }
  }

  /** `update_job_progress(job_id, p, msg)`, as step `t`. */
  method Report(store: JobStore, r: Run, t: nat, p: int, msg: string,
                ghost s0: StoreState, ghost level: int, ghost inOrder: bool) returns (t': nat)
    requires store.Valid() && Running(r, s0, store.Model())
    requires inOrder ==> ReportedUpTo(s0.events, store.events, level)
    modifies store
    ensures t' == t + 1
    ensures store.Valid() && Running(r, s0, store.Model())
    ensures store.Model() == StoreUpdateProgress(Arrive(r, t, old(store.Model())), r.jobId, p, msg, None)
    ensures inOrder && level <= p ==> ReportedUpTo(s0.events, store.events, p)
    ensures FlagAt(r, s0, old(store.Model()), t) ==> FlagAt(r, s0, store.Model(), t')
  {
    MaybeCancel(store, r, t, s0, level, inOrder);
    RunningAfterUpdate(r, s0, store.Model(), p, msg);
    if inOrder && level <= p {
      ReportedAppend(s0.events, store.events, ProgressUpdate(r.jobId, p, msg, Processing), level);
    }
    store.UpdateJobProgress(r.jobId, p, msg, None);
    t' := t + 1;
  }

  /** A cancellation checkpoint, as step `t`: on a set flag, the tracked temporary files are removed. */
  method Checkpoint(store: JobStore, fs: FileSystem, r: Run, t: nat, tracked: seq<string>,
                    ghost s0: StoreState, ghost f0: map<string, nat>, ghost level: int, ghost inOrder: bool)
    returns (cancelled: bool, t': nat)
    requires store.Valid() && Inv(r, s0, store.Model(), f0, fs.files, tracked, level, inOrder)
    modifies store, fs
    ensures t' == t + 1
    ensures store.Valid() && Inv(r, s0, store.Model(), f0, fs.files, tracked, level, inOrder)
    ensures store.Model() == Arrive(r, t, old(store.Model()))
    ensures cancelled == store.active[r.jobId]
    ensures FlagAt(r, s0, old(store.Model()), t) ==> cancelled == FlagBefore(r, s0, t') && FlagAt(r, s0, store.Model(), t')
    ensures fs.files == if cancelled then old(fs.files) - (set p | p in tracked) else old(fs.files)
    ensures cancelled ==> TempsGone(r, f0, fs.files) && forall p :: p in tracked ==> p !in fs.files
  {
    MaybeCancel(store, r, t, s0, level, inOrder);
    cancelled := store.active[r.jobId];
    if cancelled {
      FilesAfterCleanup(r, f0, fs.files, tracked);
      fs.CleanupTempFiles(tracked);
    }
    t' := t + 1;
  }

  /** The state `complete_job(job_id, error=msg)` leaves. */
  predicate FailedWith(s: StoreState, id: string, msg: string) {
    && id !in s.active
    && (id in s.jobs ==> s.jobs[id].status == Failed && s.jobs[id].progress == 0
                         && s.jobs[id].outputFilename == None && s.jobs[id].error == Some(msg))
    && |s.events| > 0 && s.events[|s.events| - 1] == JobCompleted(id, Failed, None, Some(msg))
  }

  /** `complete_job(job_id, error=msg)` and return, as step `t`. */
  method Fail(store: JobStore, r: Run, t: nat, msg: string, ghost s0: StoreState, ghost f0: map<string, nat>,
              ghost f: map<string, nat>, ghost tracked: seq<string>, ghost level: int, ghost inOrder: bool)
    returns (exit: Exit)
    requires store.Valid() && Inv(r, s0, store.Model(), f0, f, tracked, level, inOrder)
    modifies store
    ensures exit == Aborted(msg)
    ensures store.Valid() && Ended(r, s0, store.Model(), f0, f, exit, inOrder)
    ensures store.Model() == StoreComplete(Arrive(r, t, old(store.Model())), r.jobId, None, Some(msg))
  {
    MaybeCancel(store, r, t, s0, level, inOrder);
    ExtendsAppend(s0.events, store.events, JobCompleted(r.jobId, Failed, None, Some(msg)), r.jobId);
    if inOrder {
      ReportedAppend(s0.events, store.events, JobCompleted(r.jobId, Failed, None, Some(msg)), level);
    }
    store.CompleteJob(r.jobId, None, Some(msg));
    exit := Aborted(msg);
  }

  // ----- the file part of the invariant -----

  /**
   * Outside the paths a run may touch, nothing changed; and any temporary file the
   * run created is in its `temp_files` list.
   */
  ghost predicate FilesOk(r: Run, f0: map<string, nat>, f: map<string, nat>, tracked: seq<string>) {
    && SameOutside(r, f0, f)
    && (forall p :: p in tracked ==> p in TempPaths(r))
    && (forall p :: p in TempPaths(r) && p !in f0 && p in f ==> p in tracked)
  }

  /** Every path the run may not touch is as it was. */
  ghost predicate SameOutside(r: Run, f0: map<string, nat>, f: map<string, nat>) {
    forall p :: p !in Touched(r) ==> (p in f <==> p in f0) && (p in f ==> f[p] == f0[p])
  }

  /** No temporary file the run created is left. */
  predicate TempsGone(r: Run, f0: map<string, nat>, f: map<string, nat>) {
    forall p :: p in TempPaths(r) && p !in f0 ==> p !in f
  }

  /** Two names in the processed folder that differ somewhere name two different paths. */
  lemma ProcessedPathsDiffer(a: string, b: string, k: nat)
    requires k < |a| && k < |b| && a[k] != b[k] && a[0] != '/' && b[0] != '/'
    ensures Join(ProcessedFolder, a) != Join(ProcessedFolder, b)
  {
    var pa := Join(ProcessedFolder, a);
    var pb := Join(ProcessedFolder, b);
    assert pa == ProcessedFolder + "/" + a && pb == ProcessedFolder + "/" + b;
    assert pa[|ProcessedFolder| + 1 + k] == a[k];
    assert pb[|ProcessedFolder| + 1 + k] == b[k];
  }

  /** The paths the service builds for a run are five different paths. */
  lemma PathsDistinct(r: Run)
    requires WellFormed(r)
    ensures Distinct(r)
  {
    var out := OutputFilename(r.jobId, r.original);
    assert out[0] == 'p';
    var (adj, ff, vo, cv) := (SpeedAdjustedName(r), TempFfmpegName(r), VideoOnlyName(r), TempOpencvName(r));
    ProcessedPathsDiffer(out, ff, 0);
    ProcessedPathsDiffer(out, vo, 0);
    ProcessedPathsDiffer(out, cv, 0);
    ProcessedPathsDiffer(adj, ff, 0);
    ProcessedPathsDiffer(adj, vo, 0);
    ProcessedPathsDiffer(adj, cv, 0);
    ProcessedPathsDiffer(cv, ff, 5);
    ProcessedPathsDiffer(cv, vo, 0);
    ProcessedPathsDiffer(ff, vo, 0);
    ProcessedPathsDiffer(out, adj, 0);
  }

  lemma OutputsNotTemporary(r: Run)
    requires Distinct(r)
    ensures r.outputPath !in TempPaths(r) && SpeedAdjusted(r) !in TempPaths(r)
  {
    NotAmongThree(r.outputPath, TempFfmpeg(r), VideoOnlyTemp(r), TempOpencv(r));
    NotAmongThree(SpeedAdjusted(r), TempFfmpeg(r), VideoOnlyTemp(r), TempOpencv(r));
  }

  lemma NotAmongThree(x: string, a: string, b: string, c: string)
    requires x != a && x != b && x != c
    ensures x !in {a, b, c}
  {
  }

  /**
   * Writing a tracked temporary file or an output keeps the file invariant; writing an
   * output leaves the temporary files as they were.
   */
  lemma FilesAfterWrite(r: Run, f0: map<string, nat>, f: map<string, nat>, tracked: seq<string>, path: string, size: nat)
    requires FilesOk(r, f0, f, tracked)
    requires path in tracked || path == r.outputPath || path == SpeedAdjusted(r)
    requires Distinct(r)
    ensures FilesOk(r, f0, f[path := size], tracked)
    ensures path == r.outputPath || path == SpeedAdjusted(r) ==>
      forall p :: p in TempPaths(r) ==> (p in f[path := size] <==> p in f)
  {
    OutputsNotTemporary(r);
  }

  /** Removing a path the run may touch keeps the file invariant. */
  lemma FilesAfterRemove(r: Run, f0: map<string, nat>, f: map<string, nat>, tracked: seq<string>, path: string)
    requires FilesOk(r, f0, f, tracked)
    requires path in Touched(r)
    ensures FilesOk(r, f0, f - {path}, tracked)
  {
  }

  /** Tracking more temporary files keeps the file invariant. */
  lemma FilesAfterTrack(r: Run, f0: map<string, nat>, f: map<string, nat>, tracked: seq<string>, more: seq<string>)
    requires FilesOk(r, f0, f, tracked)
    requires forall p :: p in more ==> p in TempPaths(r)
    ensures FilesOk(r, f0, f, tracked + more)
  {
  }

  /** `cleanup_temp_files(temp_files)` leaves no temporary file the run created. */
  lemma FilesAfterCleanup(r: Run, f0: map<string, nat>, f: map<string, nat>, tracked: seq<string>)
    requires FilesOk(r, f0, f, tracked)
    ensures FilesOk(r, f0, f - (set p | p in tracked), tracked)
    ensures TempsGone(r, f0, f - (set p | p in tracked))
  {
  }

  /** The invariant between steps of a run. */
  ghost predicate Inv(r: Run, s0: StoreState, s: StoreState, f0: map<string, nat>, f: map<string, nat>,
                tracked: seq<string>, level: int, inOrder: bool) {
    && Distinct(r)
    && Running(r, s0, s)
    && (inOrder ==> ReportedUpTo(s0.events, s.events, level))
    && FilesOk(r, f0, f, tracked)
  }

  /** How a stage that stops the run leaves things. */
  ghost predicate Ended(r: Run, s0: StoreState, s: StoreState, f0: map<string, nat>, f: map<string, nat>,
                  exit: Exit, inOrder: bool) {
    && Untouched(r.jobId, s0, s)
    && SameOutside(r, f0, f)
    && (inOrder ==> NonDecreasing(Reports(s.events[|s0.events|..])))
    && (exit.Aborted? || exit.Stopped?)
    && (exit.Aborted? ==> FailedWith(s, r.jobId, exit.error))
    && (exit.Stopped? ==> CancelledByRequest(r, s0, s) && s.active[r.jobId] && TempsGone(r, f0, f))
  }

  // ----- the frame loop -----

  /** Frames that are not `None`: the ones written to the OpenCV output. */
  function Present(frames: seq<bool>): (n: nat)
    ensures n <= |frames|
  {
    if frames == [] then 0 else Present(frames[..|frames| - 1]) + (if frames[|frames| - 1] then 1 else 0)
  }

  function FrameMessage(frameCount: nat, totalFrames: int): string {
    "Processing frame " + NatToString(frameCount) + "/" + IntToString(totalFrames)
  }

  /** The frame total is not exceeded by the frames actually read (or is unknown). */
  predicate TotalHolds(r: Run) {
    |r.ext.frames| <= r.ext.totalFrames || r.ext.totalFrames <= 0
  }

  /** The highest progress the frame loop may have reported after `i` frames. */
  function Bound(r: Run, i: nat): int {
    if r.ext.totalFrames > 0 then 45 + i * 30 / r.ext.totalFrames else 45
  }

  lemma BoundStep(r: Run, i: nat)
    ensures Bound(r, i) <= Bound(r, i + 1)
  {
    if r.ext.totalFrames > 0 {
      DivMonotone(i * 30, (i + 1) * 30, r.ext.totalFrames);
    }
  }

  lemma BoundLimit(r: Run)
    requires TotalHolds(r)
    ensures Bound(r, |r.ext.frames|) <= 75
  {
    if r.ext.totalFrames > 0 {
      DivBelow(|r.ext.frames| * 30, 30, r.ext.totalFrames);
    }
  }

  lemma PresentStep(frames: seq<bool>, i: nat)
    requires i < |frames|
    ensures Present(frames[..i + 1]) == Present(frames[..i]) + (if frames[i] then 1 else 0)
  {
    assert frames[..i + 1][..i] == frames[..i];
  }

  /** The store part of `Inv`. */
  ghost predicate StoreOk(r: Run, s0: StoreState, s: StoreState, level: int, inOrder: bool) {
    Running(r, s0, s) && (inOrder ==> ReportedUpTo(s0.events, s.events, level))
  }

  /** Frame `i + 1` is reported: it is not `None` and the frame count is a multiple of 30. */
  predicate ReportsFrame(r: Run, i: nat)
    requires i < |r.ext.frames|
  {
    r.ext.frames[i] && FrameProgress(i + 1, r.ext.totalFrames).Some?
  }

  /** The report after the read of frame `i + 1`, if there is one. */
  function FrameReport(r: Run, i: nat): seq<Event>
    requires i < |r.ext.frames|
  {
    if ReportsFrame(r, i) then
      [ProgressUpdate(r.jobId, FrameProgress(i + 1, r.ext.totalFrames).value, FrameMessage(i + 1, r.ext.totalFrames), Processing)]
    else []
  }

  /** The reports after the reads of the first `n` frames, in order. */
  function FrameReports(r: Run, n: nat): seq<Event>
    requires n <= |r.ext.frames|
  {
    if n == 0 then [] else FrameReports(r, n - 1) + FrameReport(r, n - 1)
  }

  /** How a stage leaves the run: it goes on with step `at`, or the run exits. */
  datatype StageEnd = Next(at: nat) | Halt(exit: Exit)

  function ExitOf(e: StageEnd): Option<Exit> {
    if e.Halt? then Some(e.exit) else None
  }

  /**
   * The frame loop from the checkpoint before read `i + 1`, which is step `t`: each
   * checkpoint is one step, and each report one more.
   */
  function LoopOutcome(r: Run, s0: StoreState, i: nat, t: nat): StageEnd
    requires i <= |r.ext.frames|
    decreases |r.ext.frames| - i
  {
    if FlagBefore(r, s0, t + 1) then Halt(Stopped)
    else if i == |r.ext.frames| then Next(t + 1)
    else LoopOutcome(r, s0, i + 1, t + 1 + (if ReportsFrame(r, i) then 1 else 0))
  }

  /** One successful read: frame `i + 1` is written unless it is `None`, and reported every 30 frames. */
  method FrameStep(store: JobStore, r: Run, i: nat, t: nat,
                   ghost s0: StoreState, ghost level: int, ghost inOrder: bool, ghost n: nat)
    returns (t': nat, ghost level': int, ghost inOrder': bool)
    requires i < |r.ext.frames| && n <= |store.events|
    requires store.Valid() && StoreOk(r, s0, store.Model(), level, inOrder)
    requires TotalHolds(r) ==> level <= Bound(r, i)
    modifies store
    ensures store.Valid() && StoreOk(r, s0, store.Model(), level', inOrder')
    ensures TotalHolds(r) ==> inOrder' == inOrder && level' <= Bound(r, i + 1)
    ensures t' == t + (if ReportsFrame(r, i) then 1 else 0)
    ensures store.Model() ==
      if ReportsFrame(r, i) then
        StoreUpdateProgress(Arrive(r, t, old(store.Model())), r.jobId, FrameProgress(i + 1, r.ext.totalFrames).value,
                            FrameMessage(i + 1, r.ext.totalFrames), None)
      else old(store.Model())
    ensures FlagAt(r, s0, old(store.Model()), t) ==> FlagAt(r, s0, store.Model(), t')
    ensures n <= |store.events| && ProgressEvents(store.events[n..]) == ProgressEvents(old(store.events)[n..]) + FrameReport(r, i)
  {
    t', level', inOrder' := t, level, inOrder;
    BoundStep(r, i);
    if r.ext.frames[i] {
      var progress := FrameProgress(i + 1, r.ext.totalFrames);
      if progress.Some? {
        var p := progress.value;
        ghost var before := store.Model();
        ArriveProgress(r, t, before, n);
        UpdateProgress(Arrive(r, t, before), r.jobId, p, FrameMessage(i + 1, r.ext.totalFrames), n);
        t' := Report(store, r, t, p, FrameMessage(i + 1, r.ext.totalFrames), s0, level, inOrder);
        inOrder' := inOrder && level <= p;
        level' := if level <= p then p else level;
      }
    }
  }

  /**
   * One turn of the frame loop, from the checkpoint before read `i + 1`, which is step
   * `t`: the checkpoint, then, unless it stops the loop or the stream has ended, the read
   * of frame `i + 1`.
   */
  method ReadStep(store: JobStore, r: Run, i: nat, t: nat,
                  ghost s0: StoreState, ghost level: int, ghost inOrder: bool, ghost n: nat)
    returns (stop: bool, t': nat, ghost level': int, ghost inOrder': bool)
    requires i <= |r.ext.frames| && n <= |store.events|
    requires store.Valid() && StoreOk(r, s0, store.Model(), level, inOrder) && FlagAt(r, s0, store.Model(), t)
    requires TotalHolds(r) ==> level <= Bound(r, i)
    modifies store
    ensures store.Valid() && StoreOk(r, s0, store.Model(), level', inOrder')
    ensures stop ==> store.active[r.jobId]
    ensures stop ==> LoopOutcome(r, s0, i, t) == Halt(Stopped)
    ensures !stop ==> FlagAt(r, s0, store.Model(), t')
    ensures !stop && i == |r.ext.frames| ==> LoopOutcome(r, s0, i, t) == Next(t')
    ensures !stop && i < |r.ext.frames| ==> LoopOutcome(r, s0, i, t) == LoopOutcome(r, s0, i + 1, t')
    ensures n <= |store.events| && ProgressEvents(store.events[n..]) ==
      ProgressEvents(old(store.events)[n..]) + (if !stop && i < |r.ext.frames| then FrameReport(r, i) else [])
    ensures TotalHolds(r) ==> inOrder' == inOrder && level' <= (if !stop && i < |r.ext.frames| then Bound(r, i + 1) else Bound(r, i))
  {
    ghost var before := store.Model();
    MaybeCancel(store, r, t, s0, level, inOrder);
    ArriveProgress(r, t, before, n);
    stop, t', level', inOrder' := store.active[r.jobId], t + 1, level, inOrder;
    assert stop == FlagBefore(r, s0, t + 1);
    if !stop && i < |r.ext.frames| {
      t', level', inOrder' := FrameStep(store, r, i, t + 1, s0, level, inOrder, n);
    }
  }

  /**
   * The reads of the frame loop: a checkpoint before every read, one more for the read
   * that ends the stream, and a report every 30 frames. It stops at the first
   * checkpoint that finds the flag set.
   */
  method ReadFrames(store: JobStore, r: Run, t: nat, ghost s0: StoreState, ghost inOrder: bool)
    returns (stopped: bool, frameCount: nat, written: nat, t': nat, ghost level': int, ghost inOrder': bool)
    requires store.Valid() && StoreOk(r, s0, store.Model(), 45, inOrder)
    requires FlagAt(r, s0, store.Model(), t)
    modifies store
    ensures store.Valid() && StoreOk(r, s0, store.Model(), level', inOrder')
    ensures stopped == store.active[r.jobId]
    ensures stopped <==> LoopOutcome(r, s0, 0, t) == Halt(Stopped)
    ensures !stopped ==> LoopOutcome(r, s0, 0, t) == Next(t') && FlagAt(r, s0, store.Model(), t')
    ensures !stopped ==> frameCount == |r.ext.frames| && written == Present(r.ext.frames)
    ensures frameCount <= |r.ext.frames| && |old(store.events)| <= |store.events|
    ensures ProgressEvents(store.events[|old(store.events)|..]) == FrameReports(r, frameCount)
    ensures TotalHolds(r) ==> inOrder' == inOrder
    ensures TotalHolds(r) && !stopped ==> level' <= 75
  {
    var frames := r.ext.frames;
    ghost var n0 := |store.events|;
    assert Bound(r, 0) == 45;
    assert store.events[n0..] == [];
    var i := 0;
    written, t', level', inOrder' := 0, t, 45, inOrder;
    while true
      invariant 0 <= i <= |frames|
      invariant store.Valid() && StoreOk(r, s0, store.Model(), level', inOrder')
      invariant written == Present(frames[..i])
      invariant TotalHolds(r) ==> inOrder' == inOrder && level' <= Bound(r, i)
      invariant FlagAt(r, s0, store.Model(), t') && LoopOutcome(r, s0, i, t') == LoopOutcome(r, s0, 0, t)
      invariant n0 <= |store.events| && ProgressEvents(store.events[n0..]) == FrameReports(r, i)
      decreases |frames| - i
    {
      var stop;
      stop, t', level', inOrder' := ReadStep(store, r, i, t', s0, level', inOrder', n0);
      if stop {
        stopped, frameCount := true, i;
        return;
      }
      if i == |frames| {
        break;
      }
      PresentStep(frames, i);
      written := written + if frames[i] then 1 else 0;
      i := i + 1;
    }
    assert frames[..|frames|] == frames;
    if TotalHolds(r) {
      BoundLimit(r);
    }
    stopped, frameCount := false, |frames|;
  }

  /**
   * The frame loop with its exit on cancellation, which removes the tracked temporary
   * files. Without a cancellation it reads all frames and writes the ones that are not
   * `None`; while the frame total is not exceeded its reports stay in order and at most 75.
   */
  method FrameLoop(store: JobStore, fs: FileSystem, r: Run, t: nat, tracked: seq<string>,
                   ghost s0: StoreState, ghost f0: map<string, nat>, ghost inOrder: bool)
    returns (stopped: bool, frameCount: nat, written: nat, t': nat, ghost level': int, ghost inOrder': bool)
    requires store.Valid() && Inv(r, s0, store.Model(), f0, fs.files, tracked, 45, inOrder)
    requires FlagAt(r, s0, store.Model(), t)
    modifies store, fs
    ensures store.Valid() && Inv(r, s0, store.Model(), f0, fs.files, tracked, level', inOrder')
    ensures stopped <==> LoopOutcome(r, s0, 0, t) == Halt(Stopped)
    ensures !stopped ==> LoopOutcome(r, s0, 0, t) == Next(t') && FlagAt(r, s0, store.Model(), t')
    ensures !stopped ==> fs.files == old(fs.files) && frameCount == |r.ext.frames| && written == Present(r.ext.frames)
    ensures stopped ==> store.active[r.jobId] && TempsGone(r, f0, fs.files) && forall p :: p in tracked ==> p !in fs.files
    ensures stopped ==> fs.files == old(fs.files) - (set p | p in tracked)
    ensures frameCount <= |r.ext.frames| && |old(store.events)| <= |store.events|
    ensures ProgressEvents(store.events[|old(store.events)|..]) == FrameReports(r, frameCount)
    ensures TotalHolds(r) ==> inOrder' == inOrder
    ensures TotalHolds(r) && !stopped ==> level' <= 75
  {
    stopped, frameCount, written, t', level', inOrder' := ReadFrames(store, r, t, s0, inOrder);
    if stopped {
      FilesAfterCleanup(r, f0, fs.files, tracked);
      fs.CleanupTempFiles(tracked);
    }
  }

  // ----- the outcome of a run, stage by stage -----

  const CaptureErrorPrefix := "Could not open video file: "
  const WriterError := "OpenCV VideoWriter failed to open"
  const NoOpenCvOutputError := "OpenCV processing failed to produce valid output"
  const FinalEncodeErrorPrefix := "Final encoding error: "
  const SpeedErrorPrefix := "Speed adjustment error: "
  const CopyErrorPrefix := "Video copy error: "
  const ZeroDivisionError := "float division by zero"
  const NotFoundError := "Processed file not found"
  const EmptyError := "Processed file is empty"

  /** The first checkpoint (step 0), the report at 5 (step 1) and the parse of the speed. */
  function StartOutcome(r: Run, s0: StoreState): StageEnd {
    if FlagBefore(r, s0, 1) then Halt(Stopped)
    else if r.ext.speed.None? then Halt(Aborted(UnexpectedPrefix + FloatParseError(r.options.speed)))
    else Next(2)
  }

  /** The second checkpoint (step `t`) and the reports at 10 and 20. */
  function PrepareOutcome(r: Run, s0: StoreState, t: nat): StageEnd {
    if FlagBefore(r, s0, t + 1) then Halt(Stopped) else Next(t + 3)
  }

  /** The error the mux leaves: none when it succeeds, or when the source has no audio and the video-only copy succeeds. */
  function MuxError(r: Run): Option<string> {
    if r.ext.mux.RunOk? then None
    else if NoAudio(r.ext.mux.stderr) then (if r.ext.muxNoAudio.RunOk? then None else Some(r.ext.muxNoAudio.stderr))
    else Some(r.ext.mux.stderr)
  }

  /** The ffmpeg pass before the frame loop, when there is one: reports at 35 and 40. */
  function PrepassOutcome(r: Run, intermediate: bool, t: nat): StageEnd {
    if !intermediate then Next(t)
    else if r.ext.stageA.RunErr? then Halt(Aborted(FfmpegErrorPrefix + r.ext.stageA.stderr))
    else if MuxError(r).Some? then Halt(Aborted(FfmpegErrorPrefix + MuxError(r).value))
    else Next(t + 2)
  }

  /** The file the frame loop reads. */
  function FrameSource(r: Run, intermediate: bool): string {
    if intermediate then TempFfmpeg(r) else r.inputPath
  }

  /** The report at 45 and the opening of the capture and of the writer. */
  function OpenOutcome(r: Run, source: string, t: nat): StageEnd {
    if !r.ext.captureOpened then Halt(Aborted(CaptureErrorPrefix + source))
    else if !r.ext.writerOpened then Halt(Aborted(WriterError))
    else Next(t + 1)
  }

  /** The frame loop and the report at 75. */
  function FramesOutcome(r: Run, s0: StoreState, t: nat): StageEnd {
    match LoopOutcome(r, s0, 0, t)
    case Halt(e) => Halt(e)
    case Next(t') => Next(t' + 1)
  }

  /** The per-frame route up to the opening of the capture and the writer. */
  function OpenStagesOutcome(r: Run, intermediate: bool, t: nat): StageEnd {
    match PrepassOutcome(r, intermediate, t)
    case Halt(e) => Halt(e)
    case Next(t1) => OpenOutcome(r, FrameSource(r, intermediate), t1)
  }

  /** The per-frame route up to the end of the frame loop. */
  function FrameStagesOutcome(r: Run, s0: StoreState, intermediate: bool, t: nat): StageEnd {
    match OpenStagesOutcome(r, intermediate, t)
    case Halt(e) => Halt(e)
    case Next(t2) => FramesOutcome(r, s0, t2)
  }

  /** The final encode, on the files `f` it finds; it makes no step unless it fails. */
  function EncodeOutcome(r: Run, f: map<string, nat>): Option<Exit> {
    if !(TempOpencv(r) in f && f[TempOpencv(r)] > 0) then Some(Aborted(NoOpenCvOutputError))
    else if r.ext.finalEncode.RunErr? then Some(Aborted(FinalEncodeErrorPrefix + r.ext.finalEncode.stderr))
    else None
  }

  /** The speed pass, with its report at 85, when the speed is not 1.0. */
  function SpeedOutcome(r: Run, speed: real, t: nat): StageEnd {
    if speed == 1.0 then Next(t)
    else if speed == 0.0 then Halt(Aborted(UnexpectedPrefix + ZeroDivisionError))
    else if r.ext.speedPass.RunErr? then Halt(Aborted(SpeedErrorPrefix + r.ext.speedPass.stderr))
    else Next(t + 1)
  }

  /** The route without a per-frame filter: the report at 50 or 80, and the encode or the copy. */
  function DirectOutcome(r: Run, applied: bool, t: nat): StageEnd {
    var run := if applied then r.ext.directEncode else r.ext.streamCopy;
    if run.RunErr? then Halt(Aborted((if applied then FfmpegErrorPrefix else CopyErrorPrefix) + run.stderr))
    else Next(t + 1)
  }

  /**
   * The end of the run once the final file exists with `size` bytes: the report at 95
   * (step `t`), the last checkpoint (step `t + 1`) and the completion.
   */
  function CompleteOutcome(r: Run, s0: StoreState, final: string, size: nat, t: nat): Exit {
    if size == 0 then Aborted(EmptyError)
    else if FlagBefore(r, s0, t + 2) then Stopped
    else Finished(Basename(final))
  }

  /** The end of the run on the files `f` it finds. */
  function FinalizeOutcome(r: Run, s0: StoreState, final: string, f: map<string, nat>, t: nat): Exit {
    if final !in f then Aborted(NotFoundError) else CompleteOutcome(r, s0, final, f[final], t)
  }

  /** The per-frame route after the frame loop, from step `t` on: the final encode, the speed pass and the end. */
  function EncodeSpeedOutcome(r: Run, s0: StoreState, speed: real, t: nat): Exit {
    if EncodeOutcome(r, map[TempOpencv(r) := r.ext.writerBytes]).Some? then
      EncodeOutcome(r, map[TempOpencv(r) := r.ext.writerBytes]).value
    else
      match SpeedOutcome(r, speed, t)
      case Halt(e) => e
      case Next(t1) =>
        if speed != 1.0 then CompleteOutcome(r, s0, SpeedAdjusted(r), r.ext.speedPass.size, t1)
        else CompleteOutcome(r, s0, r.outputPath, r.ext.finalEncode.size, t1)
  }

  /** The per-frame route from the report at 30 on (step `t`). */
  function FrameRouteOutcome(r: Run, s0: StoreState, intermediate: bool, speed: real, t: nat): Exit {
    match FrameStagesOutcome(r, s0, intermediate, t)
    case Halt(e) => e
    case Next(t3) => EncodeSpeedOutcome(r, s0, speed, t3)
  }

  /** The route without a per-frame filter from step `t` on. */
  function DirectRouteOutcome(r: Run, s0: StoreState, applied: bool, t: nat): Exit {
    match DirectOutcome(r, applied, t)
    case Halt(e) => e
    case Next(t1) =>
      CompleteOutcome(r, s0, r.outputPath, (if applied then r.ext.directEncode else r.ext.streamCopy).size, t1)
  }

  /** The route the stage plan chooses, from step `t` on. */
  function RouteOutcome(r: Run, s0: StoreState, plan: StagePlan, speed: real, t: nat): Exit {
    if plan.route.FramePath? then FrameRouteOutcome(r, s0, plan.route.intermediate, speed, t)
    else DirectRouteOutcome(r, s0, FfmpegPassApplied(plan), t)
  }

  /**
   * How a run of a registered job whose store was `s0` at the start ends, given what the
   * engines, the capture and the parser return and when a cancellation request lands.
   */
  function RunOutcome(r: Run, s0: StoreState): Exit {
    match StartOutcome(r, s0)
    case Halt(e) => e
    case Next(t1) =>
      match PrepareOutcome(r, s0, t1)
      case Halt(e) => e
      case Next(t2) =>
        var speed := r.ext.speed.GetOr(1.0);
        var planned := Plan(r.options.transformation, r.options.filter, speed, r.ext.brightness, r.ext.contrast);
        if planned.Err? then Aborted(UnexpectedPrefix + planned.error)
        else RouteOutcome(r, s0, planned.value, speed, t2 + 1)
  }

  // ----- the stages -----

  /** Raising the level a report bound is checked against keeps it. */
  lemma ReportedWeaken(e0: seq<Event>, e: seq<Event>, a: int, b: int)
    requires ReportedUpTo(e0, e, a) && a <= b
    ensures ReportedUpTo(e0, e, b)
  {
  }

  /** Python's message for `float(text)` on a text that is not a number: the text as `repr` writes it. */
  function FloatParseError(text: string): string {
    FloatParsePrefix + Repr(text)
  }

  const FloatParsePrefix := "could not convert string to float: "

  const UnexpectedPrefix := "Unexpected error: "
  const FfmpegErrorPrefix := "FFmpeg processing error: "

  /**
   * The first checkpoint, the first report and the parse of the speed option. A speed
   * that does not parse ends in the generic handler.
   */
  method StartRun(store: JobStore, fs: FileSystem, r: Run, ghost s0: StoreState, ghost f0: map<string, nat>)
    returns (exit: Option<Exit>, speed: real, t: nat)
    requires store.Valid() && Inv(r, s0, store.Model(), f0, fs.files, [], 0, true)
    requires FlagAt(r, s0, store.Model(), 0)
    modifies store, fs
    ensures store.Valid()
    ensures exit.Some? ==> Ended(r, s0, store.Model(), f0, fs.files, exit.value, true)
    ensures exit.None? ==> Inv(r, s0, store.Model(), f0, fs.files, [], 5, true) && fs.files == old(fs.files)
    ensures exit.None? ==> r.ext.speed == Some(speed)
    ensures exit == ExitOf(StartOutcome(r, s0))
    ensures exit.None? ==> t == 2 && FlagAt(r, s0, store.Model(), t)
  {
    speed := 1.0;
    var cancelled;
    cancelled, t := Checkpoint(store, fs, r, 0, [], s0, f0, 0, true);
    if cancelled {
      return Some(Stopped), speed, t;
    }
    t := Report(store, r, t, 5, "Starting video processing...", s0, 0, true);
    if r.ext.speed.None? {
      FilesAfterCleanup(r, f0, fs.files, []);
      fs.CleanupTempFiles([]);
      var e := Fail(store, r, t, UnexpectedPrefix + FloatParseError(r.options.speed), s0, f0, fs.files, [], 5, true);
      return Some(e), speed, t;
    }
    speed := r.ext.speed.value;
    exit := None;
  }

  /** The second checkpoint and the reports at 10 and 20. */
  method PrepareRun(store: JobStore, fs: FileSystem, r: Run, t: nat, ghost s0: StoreState, ghost f0: map<string, nat>)
    returns (exit: Option<Exit>, t': nat)
    requires store.Valid() && Inv(r, s0, store.Model(), f0, fs.files, [], 5, true)
    requires FlagAt(r, s0, store.Model(), t)
    modifies store, fs
    ensures store.Valid()
    ensures exit.Some? ==> exit == Some(Stopped) && Ended(r, s0, store.Model(), f0, fs.files, Stopped, true)
    ensures exit.None? ==> Inv(r, s0, store.Model(), f0, fs.files, [], 20, true) && fs.files == old(fs.files)
    ensures exit == ExitOf(PrepareOutcome(r, s0, t))
    ensures exit.None? ==> t' == t + 3 && FlagAt(r, s0, store.Model(), t')
  {
    var cancelled;
    cancelled, t' := Checkpoint(store, fs, r, t, [], s0, f0, 5, true);
    if cancelled {
      return Some(Stopped), t';
    }
    t' := Report(store, r, t', 10, "Initializing FFmpeg stream...", s0, 5, true);
    t' := Report(store, r, t', 20, "Applying color adjustments...", s0, 10, true);
    exit := None;
  }

  /**
   * The stage plan and the report at 30. A zero speed folded into the ffmpeg pass ends
   * in the generic handler.
   */
  method PlanRun(store: JobStore, fs: FileSystem, r: Run, speed: real, t: nat,
                 ghost s0: StoreState, ghost f0: map<string, nat>)
    returns (exit: Option<Exit>, plan: StagePlan, t': nat)
    requires store.Valid() && Inv(r, s0, store.Model(), f0, fs.files, [], 20, true)
    requires FlagAt(r, s0, store.Model(), t)
    modifies store, fs
    ensures store.Valid()
    ensures exit.Some? ==> Ended(r, s0, store.Model(), f0, fs.files, exit.value, true)
    ensures exit.None? ==> Inv(r, s0, store.Model(), f0, fs.files, [], 30, true) && fs.files == old(fs.files)
    ensures exit.None? ==> Plan(r.options.transformation, r.options.filter, speed, r.ext.brightness, r.ext.contrast) == Ok(plan)
    ensures var planned := Plan(r.options.transformation, r.options.filter, speed, r.ext.brightness, r.ext.contrast);
      exit == if planned.Err? then Some(Aborted(UnexpectedPrefix + planned.error)) else None
    ensures exit.None? ==> t' == t + 1 && FlagAt(r, s0, store.Model(), t')
  {
    plan, t' := StagePlan([], StreamCopy), t;
    var planned := Plan(r.options.transformation, r.options.filter, speed, r.ext.brightness, r.ext.contrast);
    if planned.Err? {
      FilesAfterCleanup(r, f0, fs.files, []);
      fs.CleanupTempFiles([]);
      var e := Fail(store, r, t', UnexpectedPrefix + planned.error, s0, f0, fs.files, [], 20, true);
      return Some(e), plan, t';
    }
    plan := planned.value;
    t' := Report(store, r, t', 30, "Processing video filters...", s0, 20, true);
    exit := None;
  }

  /**
   * Muxing the source audio into the video-only file, or, when the source has no audio
   * track, copying the video alone; the video-only file is removed in every case. A mux
   * failure for any other reason, or a failing copy, yields that run's stderr.
   */
  method Mux(fs: FileSystem, r: Run, ghost f0: map<string, nat>, ghost tracked: seq<string>)
    returns (muxError: Option<string>)
    requires Distinct(r) && FilesOk(r, f0, fs.files, tracked) && tracked == [TempFfmpeg(r), VideoOnlyTemp(r)]
    modifies fs
    ensures FilesOk(r, f0, fs.files, tracked) && VideoOnlyTemp(r) !in fs.files
    ensures muxError.None? <==> r.ext.mux.RunOk? || (NoAudio(r.ext.mux.stderr) && r.ext.muxNoAudio.RunOk?)
    ensures muxError.Some? ==>
      muxError.value == if NoAudio(r.ext.mux.stderr) then r.ext.muxNoAudio.stderr else r.ext.mux.stderr
    ensures muxError.None? ==>
      var size := if r.ext.mux.RunOk? then r.ext.mux.size else r.ext.muxNoAudio.size;
      fs.files == old(fs.files)[TempFfmpeg(r) := size] - {VideoOnlyTemp(r)}
    ensures muxError.Some? ==> fs.files == old(fs.files) - {VideoOnlyTemp(r)}
    ensures muxError == MuxError(r)
  {
    muxError := None;
    var muxed: RunResult := r.ext.mux;
    if r.ext.mux.RunErr? {
      if NoAudio(r.ext.mux.stderr) {
        muxed := r.ext.muxNoAudio;
        if muxed.RunErr? {
          muxError := Some(muxed.stderr);
        }
      } else {
        muxError := Some(r.ext.mux.stderr);
      }
    }
    if muxError.None? {
      FilesAfterWrite(r, f0, fs.files, tracked, TempFfmpeg(r), muxed.size);
      fs.Write(TempFfmpeg(r), muxed.size);
    }
    FilesAfterRemove(r, f0, fs.files, tracked, VideoOnlyTemp(r));
    fs.Remove(VideoOnlyTemp(r));
  }

  /**
   * The ffmpeg pass before the frame loop: encode the graph to the video-only file,
   * mux the source audio back in (or copy the video alone when the source has no
   * audio), and remove the video-only file whatever happened.
   */
  method StageA(store: JobStore, fs: FileSystem, r: Run, t: nat,
                ghost s0: StoreState, ghost f0: map<string, nat>, ghost inOrder: bool)
    returns (exit: Option<Exit>, t': nat, tracked: seq<string>)
    requires store.Valid() && Inv(r, s0, store.Model(), f0, fs.files, [], 30, inOrder)
    requires FlagAt(r, s0, store.Model(), t)
    modifies store, fs
    ensures store.Valid()
    ensures tracked == [TempFfmpeg(r), VideoOnlyTemp(r)]
    ensures exit == ExitOf(PrepassOutcome(r, true, t))
    ensures exit.None? ==> t' == t + 2 && FlagAt(r, s0, store.Model(), t')
    ensures exit.Some? ==> Ended(r, s0, store.Model(), f0, fs.files, exit.value, inOrder)
    ensures exit.None? ==> Inv(r, s0, store.Model(), f0, fs.files, tracked, 40, inOrder)
    ensures exit.None? ==> VideoOnlyTemp(r) !in fs.files
  {
    t' := Report(store, r, t, 35, "Applying FFmpeg transformations...", s0, 30, inOrder);
    tracked := [TempFfmpeg(r), VideoOnlyTemp(r)];
    FilesAfterTrack(r, f0, fs.files, [], tracked);
    if r.ext.stageA.RunErr? {
      var e := Fail(store, r, t', FfmpegErrorPrefix + r.ext.stageA.stderr, s0, f0, fs.files, tracked, 35, inOrder);
      return Some(e), t', tracked;
    }
    FilesAfterWrite(r, f0, fs.files, tracked, VideoOnlyTemp(r), r.ext.stageA.size);
    fs.Write(VideoOnlyTemp(r), r.ext.stageA.size);
    t' := Report(store, r, t', 40, "Muxing audio and video...", s0, 35, inOrder);
    var muxError := Mux(fs, r, f0, tracked);
    if muxError.Some? {
      var e := Fail(store, r, t', FfmpegErrorPrefix + muxError.value, s0, f0, fs.files, tracked, 40, inOrder);
      return Some(e), t', tracked;
    }
    exit := None;
  }

  /**
   * Opening the capture of the frame source and the writer of the OpenCV output, which
   * creates that (still empty) output.
   */
  method OpenCvOpen(store: JobStore, fs: FileSystem, r: Run, source: string, t: nat, tracked: seq<string>,
                    ghost s0: StoreState, ghost f0: map<string, nat>, ghost level: int, ghost inOrder: bool)
    returns (exit: Option<Exit>, t': nat, tracked': seq<string>)
    requires store.Valid() && Inv(r, s0, store.Model(), f0, fs.files, tracked, level, inOrder) && level <= 45
    requires FlagAt(r, s0, store.Model(), t)
    modifies store, fs
    ensures store.Valid()
    ensures tracked' == tracked + [TempOpencv(r)]
    ensures exit == ExitOf(OpenOutcome(r, source, t))
    ensures exit.None? ==> t' == t + 1 && FlagAt(r, s0, store.Model(), t')
    ensures exit.Some? ==> Ended(r, s0, store.Model(), f0, fs.files, exit.value, inOrder)
    ensures exit.None? ==> Inv(r, s0, store.Model(), f0, fs.files, tracked', 45, inOrder)
    ensures exit.None? ==> fs.files == old(fs.files)[TempOpencv(r) := 0]
  {
    t' := Report(store, r, t, 45, "Starting OpenCV processing...", s0, level, inOrder);
    tracked' := tracked + [TempOpencv(r)];
    if !r.ext.captureOpened {
      var e := Fail(store, r, t', CaptureErrorPrefix + source, s0, f0, fs.files, tracked, 45, inOrder);
      return Some(e), t', tracked';
    }
    FilesAfterTrack(r, f0, fs.files, tracked, [TempOpencv(r)]);
    if !r.ext.writerOpened {
      var e := Fail(store, r, t', WriterError, s0, f0, fs.files, tracked', 45, inOrder);
      return Some(e), t', tracked';
    }
    FilesAfterWrite(r, f0, fs.files, tracked', TempOpencv(r), 0);
    fs.Write(TempOpencv(r), 0);
    exit := None;
  }

  /**
   * The frame loop, the release of the writer, which gives the OpenCV output its final
   * size, and the report at 75.
   */
  method OpenCvFrames(store: JobStore, fs: FileSystem, r: Run, t: nat, tracked: seq<string>,
                      ghost s0: StoreState, ghost f0: map<string, nat>, ghost inOrder: bool)
    returns (exit: Option<Exit>, t': nat, ghost inOrder': bool)
    requires store.Valid() && Inv(r, s0, store.Model(), f0, fs.files, tracked, 45, inOrder)
    requires TempOpencv(r) in tracked && FlagAt(r, s0, store.Model(), t)
    modifies store, fs
    ensures store.Valid()
    ensures exit == ExitOf(FramesOutcome(r, s0, t))
    ensures exit.None? ==> t' == FramesOutcome(r, s0, t).at && FlagAt(r, s0, store.Model(), t')
    ensures exit.Some? ==> exit == Some(Stopped) && Ended(r, s0, store.Model(), f0, fs.files, Stopped, inOrder')
    ensures exit.None? ==> Inv(r, s0, store.Model(), f0, fs.files, tracked, 75, inOrder')
    ensures exit.None? ==> fs.files == old(fs.files)[TempOpencv(r) := r.ext.writerBytes]
    ensures TotalHolds(r) ==> inOrder' == inOrder
  {
    var stopped, frameCount, written;
    ghost var level;
    stopped, frameCount, written, t', level, inOrder' := FrameLoop(store, fs, r, t, tracked, s0, f0, inOrder);
    if stopped {
      return Some(Stopped), t', inOrder';
    }
    FilesAfterWrite(r, f0, fs.files, tracked, TempOpencv(r), r.ext.writerBytes);
    fs.Write(TempOpencv(r), r.ext.writerBytes);
    t' := Report(store, r, t', 75, "Finalizing video encoding...", s0, level, inOrder');
    inOrder' := inOrder' && level <= 75;
    exit := None;
  }

  /** The re-encoded output is written; the OpenCV output and the muxed file are removed. */
  method KeepEncoded(fs: FileSystem, r: Run, intermediate: bool, size: nat, ghost f0: map<string, nat>, ghost tracked: seq<string>)
    requires Distinct(r) && FilesOk(r, f0, fs.files, tracked)
    requires tracked == (if intermediate then [TempFfmpeg(r), VideoOnlyTemp(r)] else []) + [TempOpencv(r)]
    requires VideoOnlyTemp(r) in tracked ==> VideoOnlyTemp(r) !in fs.files
    modifies fs
    ensures FilesOk(r, f0, fs.files, tracked) && forall p :: p in tracked ==> p !in fs.files
    ensures intermediate ==> fs.files == old(fs.files)[r.outputPath := size] - {TempOpencv(r)} - {TempFfmpeg(r)}
    ensures !intermediate ==> fs.files == old(fs.files)[r.outputPath := size] - {TempOpencv(r)}
    ensures r.outputPath in fs.files && fs.files[r.outputPath] == size
  {
    FilesAfterWrite(r, f0, fs.files, tracked, r.outputPath, size);
    assert VideoOnlyTemp(r) in TempPaths(r);
    fs.Write(r.outputPath, size);
    FilesAfterRemove(r, f0, fs.files, tracked, TempOpencv(r));
    fs.Remove(TempOpencv(r));
    if intermediate {
      FilesAfterRemove(r, f0, fs.files, tracked, TempFfmpeg(r));
      fs.Remove(TempFfmpeg(r));
    }
  }

  /** The final re-encode of the OpenCV output, which then removes the OpenCV output and the muxed file. */
  method FinalEncode(store: JobStore, fs: FileSystem, r: Run, intermediate: bool, t: nat, tracked: seq<string>,
                     ghost s0: StoreState, ghost f0: map<string, nat>, ghost inOrder: bool)
    returns (exit: Option<Exit>)
    requires store.Valid() && Inv(r, s0, store.Model(), f0, fs.files, tracked, 75, inOrder)
    requires tracked == (if intermediate then [TempFfmpeg(r), VideoOnlyTemp(r)] else []) + [TempOpencv(r)]
    requires VideoOnlyTemp(r) in tracked ==> VideoOnlyTemp(r) !in fs.files
    modifies store, fs
    ensures store.Valid()
    ensures exit.Some? ==> Ended(r, s0, store.Model(), f0, fs.files, exit.value, inOrder)
    ensures exit.None? ==> Inv(r, s0, store.Model(), f0, fs.files, tracked, 75, inOrder) && store.Model() == old(store.Model())
    ensures exit.None? ==> forall p :: p in tracked ==> p !in fs.files
    ensures exit.None? ==> r.ext.finalEncode.RunOk? && r.outputPath in fs.files && fs.files[r.outputPath] == r.ext.finalEncode.size
    ensures exit == EncodeOutcome(r, old(fs.files))
  {
    if TempOpencv(r) in fs.files && fs.files[TempOpencv(r)] > 0 {
      if r.ext.finalEncode.RunErr? {
        var e := Fail(store, r, t, FinalEncodeErrorPrefix + r.ext.finalEncode.stderr, s0, f0, fs.files, tracked, 75, inOrder);
        return Some(e);
      }
      KeepEncoded(fs, r, intermediate, r.ext.finalEncode.size, f0, tracked);
      exit := None;
    } else {
      var e := Fail(store, r, t, NoOpenCvOutputError, s0, f0, fs.files, tracked, 75, inOrder);
      exit := Some(e);
    }
  }

  /**
   * The speed pass of the per-frame path, when the speed is not 1.0: it re-times the
   * output into the speed-adjusted file and removes the output. Building the `setpts`
   * expression divides by the speed, so a zero speed ends in the generic handler.
   */
  method SpeedStage(store: JobStore, fs: FileSystem, r: Run, speed: real, t: nat, tracked: seq<string>,
                    ghost s0: StoreState, ghost f0: map<string, nat>, ghost inOrder: bool)
    returns (exit: Option<Exit>, final: string, t': nat)
    requires store.Valid() && Inv(r, s0, store.Model(), f0, fs.files, tracked, 75, inOrder)
    requires forall p :: p in tracked ==> p !in fs.files
    requires FlagAt(r, s0, store.Model(), t)
    modifies store, fs
    ensures store.Valid()
    ensures exit == ExitOf(SpeedOutcome(r, speed, t))
    ensures exit.None? ==> t' == SpeedOutcome(r, speed, t).at && FlagAt(r, s0, store.Model(), t')
    ensures exit.Some? ==> Ended(r, s0, store.Model(), f0, fs.files, exit.value, inOrder)
    ensures exit.None? ==> Inv(r, s0, store.Model(), f0, fs.files, tracked, 85, inOrder)
    ensures exit.None? ==> forall p :: p in tracked ==> p !in fs.files
    ensures exit.None? ==> final == if speed != 1.0 then SpeedAdjusted(r) else r.outputPath
    ensures exit.None? && speed != 1.0 ==>
      r.ext.speedPass.RunOk? && fs.files == old(fs.files)[SpeedAdjusted(r) := r.ext.speedPass.size] - {r.outputPath}
    ensures speed == 1.0 ==> exit.None? && fs.files == old(fs.files) && store.Model() == old(store.Model())
  {
    final, t' := r.outputPath, t;
    if speed == 1.0 {
      if inOrder {
        ReportedWeaken(s0.events, store.events, 75, 85);
      }
      return None, final, t';
    }
    t' := Report(store, r, t, 85, "Applying speed adjustment (" + r.ext.speedText + "x)...", s0, 75, inOrder);
    if speed == 0.0 {
      FilesAfterCleanup(r, f0, fs.files, tracked);
      fs.CleanupTempFiles(tracked);
      var e := Fail(store, r, t', UnexpectedPrefix + ZeroDivisionError, s0, f0, fs.files, tracked, 85, inOrder);
      return Some(e), final, t';
    }
    if r.ext.speedPass.RunErr? {
      var e := Fail(store, r, t', SpeedErrorPrefix + r.ext.speedPass.stderr, s0, f0, fs.files, tracked, 85, inOrder);
      return Some(e), final, t';
    }
    FilesAfterWrite(r, f0, fs.files, tracked, SpeedAdjusted(r), r.ext.speedPass.size);
    fs.Write(SpeedAdjusted(r), r.ext.speedPass.size);
    FilesAfterRemove(r, f0, fs.files, tracked, r.outputPath);
    if r.outputPath != SpeedAdjusted(r) {
      fs.Remove(r.outputPath);
    }
    final := SpeedAdjusted(r);
    exit := None;
  }

  /** The route without a per-frame filter: one ffmpeg encode of the graph, or a stream copy. */
  method DirectStage(store: JobStore, fs: FileSystem, r: Run, applied: bool, t: nat,
                     ghost s0: StoreState, ghost f0: map<string, nat>)
    returns (exit: Option<Exit>, t': nat)
    requires store.Valid() && Inv(r, s0, store.Model(), f0, fs.files, [], 30, true)
    requires FlagAt(r, s0, store.Model(), t)
    modifies store, fs
    ensures store.Valid()
    ensures exit.Some? ==> Ended(r, s0, store.Model(), f0, fs.files, exit.value, true)
    ensures exit.None? ==> Inv(r, s0, store.Model(), f0, fs.files, [], 80, true)
    ensures exit == ExitOf(DirectOutcome(r, applied, t))
    ensures exit.None? ==> t' == t + 1 && FlagAt(r, s0, store.Model(), t')
    ensures exit.None? ==> var run := if applied then r.ext.directEncode else r.ext.streamCopy;
      run.RunOk? && fs.files == old(fs.files)[r.outputPath := run.size]
  {
    var run, errorPrefix;
    if applied {
      t' := Report(store, r, t, 50, "Processing with FFmpeg...", s0, 30, true);
      run, errorPrefix := r.ext.directEncode, FfmpegErrorPrefix;
      ReportedWeaken(s0.events, store.events, 50, 80);
    } else {
      t' := Report(store, r, t, 80, "Copying video file...", s0, 30, true);
      run, errorPrefix := r.ext.streamCopy, CopyErrorPrefix;
    }
    if run.RunErr? {
      var e := Fail(store, r, t', errorPrefix + run.stderr, s0, f0, fs.files, [], 80, true);
      return Some(e), t';
    }
    FilesAfterWrite(r, f0, fs.files, [], r.outputPath, run.size);
    fs.Write(r.outputPath, run.size);
    exit := None;
  }

  /** Store calls about the run's own job keep the other jobs untouched. */
  lemma UntouchedAfter(id: string, s0: StoreState, s: StoreState, op: StoreOp)
    requires Untouched(id, s0, s) && op.id == id && (op.Update? || op.Complete? || op.Cancel?)
    ensures Untouched(id, s0, Apply(s, op))
  {
    match op
    case Update(_, p, m, st) =>
      ExtendsAppend(s0.events, s.events, ProgressUpdate(id, p, m, st.GetOr(Processing)), id);
    case Complete(_, out, err) =>
      ExtendsAppend(s0.events, s.events, JobCompleted(id, CompletionStatus(out), out, err), id);
      assert Apply(s, op).active - {id} == s.active - {id};
    case Cancel(_) =>
      if id in s.active {
        ExtendsAppend(s0.events, s.events, JobCompleted(id, Cancelled, None, Some(CancelledError)), id);
        assert Apply(s, op).active - {id} == s.active - {id};
      }
  }

  /** The state `complete_job(job_id, output_filename=name)` leaves. */
  predicate CompletedWith(s: StoreState, id: string, name: string) {
    && id !in s.active
    && (id in s.jobs ==> s.jobs[id].status == CompletionStatus(Some(name)) && s.jobs[id].outputFilename == Some(name)
                         && s.jobs[id].error == None)
    && |s.events| > 0 && s.events[|s.events| - 1] == JobCompleted(id, CompletionStatus(Some(name)), Some(name), None)
  }

  const CompletedMessage := "Processing completed successfully!"

  /**
   * The report at 100 with status `completed`, as step `t`. After it a cancellation no
   * longer leaves a cancelled record.
   */
  method MarkCompleted(store: JobStore, r: Run, t: nat, ghost s0: StoreState, ghost level: int, ghost inOrder: bool)
    requires store.Valid() && Running(r, s0, store.Model()) && level <= 100
    requires inOrder ==> ReportedUpTo(s0.events, store.events, level)
    modifies store
    ensures store.Valid() && Untouched(r.jobId, s0, store.Model()) && r.jobId in store.active
    ensures inOrder ==> ReportedUpTo(s0.events, store.events, 100)
    ensures store.Model() == StoreUpdateProgress(Arrive(r, t, old(store.Model())), r.jobId, 100, CompletedMessage, Some(Completed))
  {
    var id := r.jobId;
    MaybeCancel(store, r, t, s0, level, inOrder);
    UntouchedAfter(id, s0, store.Model(), Update(id, 100, CompletedMessage, Some(Completed)));
    if inOrder {
      ReportedAppend(s0.events, store.events, ProgressUpdate(id, 100, CompletedMessage, Completed), level);
    }
    store.UpdateJobProgress(id, 100, CompletedMessage, Some(Completed));
  }

  /** `complete_job(job_id, output_filename=name)`, as step `t`; a cancellation landing just before is overwritten. */
  method CompleteRun(store: JobStore, r: Run, t: nat, name: string, ghost s0: StoreState, ghost inOrder: bool)
    requires store.Valid() && Untouched(r.jobId, s0, store.Model()) && r.jobId in store.active
    requires inOrder ==> ReportedUpTo(s0.events, store.events, 100)
    modifies store
    ensures store.Valid() && Untouched(r.jobId, s0, store.Model()) && CompletedWith(store.Model(), r.jobId, name)
    ensures inOrder ==> ReportedUpTo(s0.events, store.events, 100)
    ensures store.Model() == StoreComplete(Arrive(r, t, old(store.Model())), r.jobId, Some(name), None)
  {
    var id := r.jobId;
    if r.ext.cancelAt == Some(t) {
      UntouchedAfter(id, s0, store.Model(), Cancel(id));
      if inOrder {
        ReportedAppend(s0.events, store.events, JobCompleted(id, Cancelled, None, Some(CancelledError)), 100);
      }
      var _ := store.CancelJob(id);
    }
    UntouchedAfter(id, s0, store.Model(), Complete(id, Some(name), None));
    if inOrder {
      ReportedAppend(s0.events, store.events, JobCompleted(id, CompletionStatus(Some(name)), Some(name), None), 100);
    }
    store.CompleteJob(id, Some(name), None);
  }

  /** How a successful run leaves things. */
  ghost predicate Done(r: Run, s0: StoreState, s: StoreState, f0: map<string, nat>, f: map<string, nat>,
                       final: string, name: string, inOrder: bool) {
    && Untouched(r.jobId, s0, s)
    && SameOutside(r, f0, f)
    && TempsGone(r, f0, f)
    && final in f && f[final] > 0
    && name == Basename(final)
    && CompletedWith(s, r.jobId, name)
    && (inOrder ==> NonDecreasing(Reports(s.events[|s0.events|..])))
  }

  /** The check of the final file, the last checkpoint, and the completion. */
  method Finalize(store: JobStore, fs: FileSystem, r: Run, final: string, t: nat, tracked: seq<string>,
                  ghost s0: StoreState, ghost f0: map<string, nat>, ghost level: int, ghost inOrder: bool)
    returns (exit: Exit)
    requires store.Valid() && Inv(r, s0, store.Model(), f0, fs.files, tracked, level, inOrder) && level <= 95
    requires forall p :: p in tracked ==> p !in fs.files
    requires FlagAt(r, s0, store.Model(), t)
    modifies store, fs
    ensures store.Valid()
    ensures exit == FinalizeOutcome(r, s0, final, old(fs.files), t)
    ensures exit.Aborted? || exit.Stopped? || exit.Finished?
    ensures !exit.Finished? ==> Ended(r, s0, store.Model(), f0, fs.files, exit, inOrder)
    ensures exit.Finished? ==> Done(r, s0, store.Model(), f0, fs.files, final, exit.outputFilename, inOrder)
    ensures exit.Finished? ==> fs.files == old(fs.files)
  {
    var t' := Report(store, r, t, 95, "Finalizing...", s0, level, inOrder);
    if final !in fs.files {
      exit := Fail(store, r, t', NotFoundError, s0, f0, fs.files, tracked, 95, inOrder);
      return;
    }
    if fs.files[final] == 0 {
      exit := Fail(store, r, t', EmptyError, s0, f0, fs.files, tracked, 95, inOrder);
      return;
    }
    var cancelled;
    cancelled, t' := Checkpoint(store, fs, r, t', tracked, s0, f0, 95, inOrder);
    if cancelled {
      return Stopped;
    }
    var name := Basename(final);
    MarkCompleted(store, r, t', s0, 95, inOrder);
    CompleteRun(store, r, t' + 1, name, s0, inOrder);
    exit := Finished(name);
  }

  /**
   * The ffmpeg pass with its intermediate file when the graph is not empty; `source` is
   * the file the OpenCV stage then reads.
   */
  method Prepass(store: JobStore, fs: FileSystem, r: Run, intermediate: bool, t: nat,
                 ghost s0: StoreState, ghost f0: map<string, nat>)
    returns (exit: Option<Exit>, t': nat, tracked: seq<string>, source: string)
    requires store.Valid() && Inv(r, s0, store.Model(), f0, fs.files, [], 30, true)
    requires FlagAt(r, s0, store.Model(), t)
    modifies store, fs
    ensures store.Valid()
    ensures exit == ExitOf(PrepassOutcome(r, intermediate, t))
    ensures exit.None? ==> t' == PrepassOutcome(r, intermediate, t).at && FlagAt(r, s0, store.Model(), t')
    ensures exit.Some? ==> Ended(r, s0, store.Model(), f0, fs.files, exit.value, true)
    ensures exit.None? ==> Inv(r, s0, store.Model(), f0, fs.files, tracked, 40, true)
    ensures exit.None? ==> tracked == (if intermediate then [TempFfmpeg(r), VideoOnlyTemp(r)] else [])
    ensures exit.None? ==> source == FrameSource(r, intermediate)
    ensures exit.None? ==> VideoOnlyTemp(r) in tracked ==> VideoOnlyTemp(r) !in fs.files
  {
    t', tracked, source := t, [], r.inputPath;
    if intermediate {
      exit, t', tracked := StageA(store, fs, r, t', s0, f0, true);
      source := TempFfmpeg(r);
    } else {
      exit := None;
      ReportedWeaken(s0.events, store.events, 30, 40);
    }
  }

  /** The ffmpeg pass when there is one, then the opening of the capture and the writer. */
  method OpenStages(store: JobStore, fs: FileSystem, r: Run, intermediate: bool, t: nat,
                    ghost s0: StoreState, ghost f0: map<string, nat>)
    returns (exit: Option<Exit>, t': nat, tracked: seq<string>)
    requires store.Valid() && Inv(r, s0, store.Model(), f0, fs.files, [], 30, true)
    requires FlagAt(r, s0, store.Model(), t)
    modifies store, fs
    ensures store.Valid()
    ensures exit == ExitOf(OpenStagesOutcome(r, intermediate, t))
    ensures exit.None? ==> t' == OpenStagesOutcome(r, intermediate, t).at && FlagAt(r, s0, store.Model(), t')
    ensures exit.Some? ==> Ended(r, s0, store.Model(), f0, fs.files, exit.value, true)
    ensures exit.None? ==> Inv(r, s0, store.Model(), f0, fs.files, tracked, 45, true)
    ensures exit.None? ==> tracked == (if intermediate then [TempFfmpeg(r), VideoOnlyTemp(r)] else []) + [TempOpencv(r)]
    ensures exit.None? ==> (VideoOnlyTemp(r) in tracked ==> VideoOnlyTemp(r) !in fs.files)
  {
    var source;
    exit, t', tracked, source := Prepass(store, fs, r, intermediate, t, s0, f0);
    if exit.Some? {
      return;
    }
    exit, t', tracked := OpenCvOpen(store, fs, r, source, t', tracked, s0, f0, 40, true);
  }

  /** The ffmpeg pass when there is one, then the OpenCV stage. */
  method FrameStages(store: JobStore, fs: FileSystem, r: Run, intermediate: bool, t: nat,
                     ghost s0: StoreState, ghost f0: map<string, nat>)
    returns (exit: Option<Exit>, t': nat, tracked: seq<string>, ghost inOrder: bool)
    requires store.Valid() && Inv(r, s0, store.Model(), f0, fs.files, [], 30, true)
    requires FlagAt(r, s0, store.Model(), t)
    modifies store, fs
    ensures store.Valid()
    ensures exit == ExitOf(FrameStagesOutcome(r, s0, intermediate, t))
    ensures exit.None? ==> t' == FrameStagesOutcome(r, s0, intermediate, t).at && FlagAt(r, s0, store.Model(), t')
    ensures exit.None? ==> TempOpencv(r) in fs.files && fs.files[TempOpencv(r)] == r.ext.writerBytes
    ensures exit.Some? ==> Ended(r, s0, store.Model(), f0, fs.files, exit.value, inOrder)
    ensures exit.None? ==> Inv(r, s0, store.Model(), f0, fs.files, tracked, 75, inOrder)
    ensures exit.None? ==> tracked == (if intermediate then [TempFfmpeg(r), VideoOnlyTemp(r)] else []) + [TempOpencv(r)]
    ensures exit.None? ==> (VideoOnlyTemp(r) in tracked ==> VideoOnlyTemp(r) !in fs.files)
    ensures TotalHolds(r) ==> inOrder
  {
    inOrder := true;
    exit, t', tracked := OpenStages(store, fs, r, intermediate, t, s0, f0);
    if exit.Some? {
      return;
    }
    exit, t', inOrder := OpenCvFrames(store, fs, r, t', tracked, s0, f0, true);
  }

  /** The final encode and the speed pass. `final` is the file the run then checks. */
  method EncodeAndSpeed(store: JobStore, fs: FileSystem, r: Run, intermediate: bool, speed: real, t: nat,
                        tracked: seq<string>, ghost s0: StoreState, ghost f0: map<string, nat>, ghost inOrder: bool)
    returns (exit: Option<Exit>, final: string, t': nat)
    requires store.Valid() && Inv(r, s0, store.Model(), f0, fs.files, tracked, 75, inOrder)
    requires tracked == (if intermediate then [TempFfmpeg(r), VideoOnlyTemp(r)] else []) + [TempOpencv(r)]
    requires VideoOnlyTemp(r) in tracked ==> VideoOnlyTemp(r) !in fs.files
    requires TempOpencv(r) in fs.files && fs.files[TempOpencv(r)] == r.ext.writerBytes
    requires FlagAt(r, s0, store.Model(), t)
    modifies store, fs
    ensures store.Valid()
    ensures exit.Some? ==> Ended(r, s0, store.Model(), f0, fs.files, exit.value, inOrder)
    ensures exit.None? ==> Inv(r, s0, store.Model(), f0, fs.files, tracked, 85, inOrder)
    ensures exit.None? ==> (forall p :: p in tracked ==> p !in fs.files)
    ensures exit.None? ==> final == if speed != 1.0 then SpeedAdjusted(r) else r.outputPath
    ensures exit.Some? ==> exit.value == EncodeSpeedOutcome(r, s0, speed, t)
    ensures exit.None? ==>
      FlagAt(r, s0, store.Model(), t') && FinalizeOutcome(r, s0, final, fs.files, t') == EncodeSpeedOutcome(r, s0, speed, t)
  {
    final, t' := r.outputPath, t;
    exit := FinalEncode(store, fs, r, intermediate, t, tracked, s0, f0, inOrder);
    if exit.Some? {
      return;
    }
    exit, final, t' := SpeedStage(store, fs, r, speed, t, tracked, s0, f0, inOrder);
  }

  /**
   * The per-frame route: the stages before the final encode, the final encode and the
   * speed pass. `final` is the file the run then checks.
   */
  method FramePathRun(store: JobStore, fs: FileSystem, r: Run, intermediate: bool, speed: real, t: nat,
                      ghost s0: StoreState, ghost f0: map<string, nat>)
    returns (exit: Option<Exit>, final: string, t': nat, tracked: seq<string>, ghost inOrder: bool)
    requires store.Valid() && Inv(r, s0, store.Model(), f0, fs.files, [], 30, true)
    requires FlagAt(r, s0, store.Model(), t)
    modifies store, fs
    ensures store.Valid()
    ensures exit.Some? ==> exit.value == FrameRouteOutcome(r, s0, intermediate, speed, t)
    ensures exit.None? ==>
      FlagAt(r, s0, store.Model(), t') && FinalizeOutcome(r, s0, final, fs.files, t') == FrameRouteOutcome(r, s0, intermediate, speed, t)
    ensures exit.Some? ==> Ended(r, s0, store.Model(), f0, fs.files, exit.value, inOrder)
    ensures exit.None? ==> Inv(r, s0, store.Model(), f0, fs.files, tracked, 85, inOrder)
    ensures exit.None? ==> (forall p :: p in tracked ==> p !in fs.files)
    ensures exit.None? ==> final == if speed != 1.0 then SpeedAdjusted(r) else r.outputPath
    ensures TotalHolds(r) ==> inOrder
  {
    final := r.outputPath;
    exit, t', tracked, inOrder := FrameStages(store, fs, r, intermediate, t, s0, f0);
    if exit.Some? {
      return;
    }
    exit, final, t' := EncodeAndSpeed(store, fs, r, intermediate, speed, t', tracked, s0, f0, inOrder);
  }

  /** At the start of a registered run the invariant holds with nothing reported yet. */
  lemma InvAtStart(r: Run, s: StoreState, f: map<string, nat>)
    requires WellFormed(r) && r.jobId in s.active
    ensures Inv(r, s, s, f, f, [], 0, true)
  {
    PathsDistinct(r);
    assert s.events[|s.events|..] == [];
    assert s.events[..|s.events|] == s.events;
  }

  /** A run that appended no progress event reported nothing out of order. */
  lemma NothingReported(e0: seq<Event>, x: Event)
    requires x.JobCompleted?
    ensures NonDecreasing(Reports((e0 + [x])[|e0|..]))
  {
    assert (e0 + [x])[|e0|..] == [x];
    assert [x][..0] == [];
  }

  /** The file `process_video_background` checks at the end: the speed-adjusted file only after a speed pass. */
  function FinalPath(r: Run): string {
    if r.options.filter != "none" && r.ext.speed != Some(1.0) then SpeedAdjusted(r) else r.outputPath
  }

  /** `processed_<id>_<file name>` holds no separator when neither the id nor the file name does. */
  lemma OutputNameNoSeparator(id: string, original: string)
    requires forall i :: 0 <= i < |id| ==> id[i] != '/'
    requires forall i :: 0 <= i < |original| ==> original[i] != '/'
    ensures forall i :: 0 <= i < |OutputFilename(id, original)| ==> OutputFilename(id, original)[i] != '/'
  {
    var o := OutputFilename(id, original);
    var n := InputFilename(id, original);
    forall i | 0 <= i < |o| ensures o[i] != '/' {
      if i < 10 {
        assert o[i] == o[..10][i] == "processed_"[i];
      } else {
        assert o[i] == n[i - 10];
        if i - 10 < |id| {
          assert n[i - 10] == n[..|id|][i - 10] == id[i - 10];
        } else if i - 10 > |id| {
          assert n[i - 10] == n[|id| + 1..][i - 11 - |id|] == original[i - 11 - |id|];
        }
      }
    }
  }

  /**
   * The name a completed run stores as its output: `processed_<id>_<file name>`, or
   * `speed_adj_` followed by that name after a speed pass.
   */
  lemma FinishedName(r: Run)
    requires WellFormed(r)
    requires forall i :: 0 <= i < |r.jobId| ==> r.jobId[i] != '/'
    requires forall i :: 0 <= i < |r.original| ==> r.original[i] != '/'
    ensures Basename(r.outputPath) == OutputFilename(r.jobId, r.original)
    ensures Basename(FinalPath(r)) ==
      if r.options.filter != "none" && r.ext.speed != Some(1.0) then "speed_adj_" + OutputFilename(r.jobId, r.original)
      else OutputFilename(r.jobId, r.original)
  {
    var out := OutputFilename(r.jobId, r.original);
    OutputNameNoSeparator(r.jobId, r.original);
    BasenameOfJoin(ProcessedFolder, out);
    var adj := "speed_adj_" + out;
    SpeedPrefixNoSeparator();
    NoSeparatorConcat("speed_adj_", out);
    assert SpeedAdjustedName(r) == adj;
    BasenameOfJoin(ProcessedFolder, adj);
  }

  lemma SpeedPrefixNoSeparator()
    ensures forall i :: 0 <= i < |"speed_adj_"| ==> "speed_adj_"[i] != '/'
  {
  }

  /** Two texts without a separator make one without a separator. */
  lemma NoSeparatorConcat(a: string, b: string)
    requires forall i :: 0 <= i < |a| ==> a[i] != '/'
    requires forall i :: 0 <= i < |b| ==> b[i] != '/'
    ensures forall i :: 0 <= i < |a + b| ==> (a + b)[i] != '/'
  {
    forall i | 0 <= i < |a + b| ensures (a + b)[i] != '/' {
      if i >= |a| {
        assert (a + b)[i] == b[i - |a|];
      }
    }
  }

  /** How a registered run ends: `Ended` for a failure or a stop, `Done` for a completion. */
  ghost predicate Outcome(r: Run, s0: StoreState, s: StoreState, f0: map<string, nat>, f: map<string, nat>,
                          exit: Exit, finalPath: string, inOrder: bool) {
    && !exit.NotInitialized?
    && (!exit.Finished? ==> Ended(r, s0, s, f0, f, exit, inOrder))
    && (exit.Finished? ==> finalPath == FinalPath(r) && Done(r, s0, s, f0, f, finalPath, exit.outputFilename, inOrder))
  }

  /** Option parsing, the first checkpoints and reports, and the stage plan. */
  method Begin(store: JobStore, fs: FileSystem, r: Run, ghost s0: StoreState, ghost f0: map<string, nat>)
    returns (exit: Option<Exit>, speed: real, plan: StagePlan, t: nat)
    requires store.Valid() && Inv(r, s0, store.Model(), f0, fs.files, [], 0, true)
    requires FlagAt(r, s0, store.Model(), 0)
    modifies store, fs
    ensures exit.Some? ==> exit.value == RunOutcome(r, s0)
    ensures exit.None? ==> FlagAt(r, s0, store.Model(), t) && RouteOutcome(r, s0, plan, speed, t) == RunOutcome(r, s0)
    ensures store.Valid()
    ensures exit.Some? ==> Ended(r, s0, store.Model(), f0, fs.files, exit.value, true)
    ensures exit.None? ==> Inv(r, s0, store.Model(), f0, fs.files, [], 30, true) && r.ext.speed == Some(speed)
    ensures exit.None? ==> Plan(r.options.transformation, r.options.filter, speed, r.ext.brightness, r.ext.contrast) == Ok(plan)
  {
    plan := StagePlan([], StreamCopy);
    exit, speed, t := StartRun(store, fs, r, s0, f0);
    if exit.Some? {
      return;
    }
    exit, t := PrepareRun(store, fs, r, t, s0, f0);
    if exit.Some? {
      return;
    }
    exit, plan, t := PlanRun(store, fs, r, speed, t, s0, f0);
  }

  /** The per-frame route and the final check. */
  method FrameRoute(store: JobStore, fs: FileSystem, r: Run, intermediate: bool, speed: real, t: nat,
                    ghost s0: StoreState, ghost f0: map<string, nat>)
    returns (exit: Exit, finalPath: string, ghost inOrder: bool)
    requires store.Valid() && Inv(r, s0, store.Model(), f0, fs.files, [], 30, true)
    requires r.options.filter != "none" && r.ext.speed == Some(speed)
    requires FlagAt(r, s0, store.Model(), t)
    modifies store, fs
    ensures exit == FrameRouteOutcome(r, s0, intermediate, speed, t)
    ensures store.Valid() && Outcome(r, s0, store.Model(), f0, fs.files, exit, finalPath, inOrder)
    ensures TotalHolds(r) ==> inOrder
  {
    var e, t', tracked;
    e, finalPath, t', tracked, inOrder := FramePathRun(store, fs, r, intermediate, speed, t, s0, f0);
    if e.Some? {
      return e.value, finalPath, inOrder;
    }
    exit := Finalize(store, fs, r, finalPath, t', tracked, s0, f0, 85, inOrder);
  }

  /** The route without a per-frame filter and the final check. */
  method DirectRoute(store: JobStore, fs: FileSystem, r: Run, applied: bool, t: nat,
                     ghost s0: StoreState, ghost f0: map<string, nat>)
    returns (exit: Exit, finalPath: string)
    requires store.Valid() && Inv(r, s0, store.Model(), f0, fs.files, [], 30, true)
    requires r.options.filter == "none"
    requires FlagAt(r, s0, store.Model(), t)
    modifies store, fs
    ensures exit == DirectRouteOutcome(r, s0, applied, t)
    ensures store.Valid() && Outcome(r, s0, store.Model(), f0, fs.files, exit, finalPath, true)
  {
    finalPath := r.outputPath;
    var e, t' := DirectStage(store, fs, r, applied, t, s0, f0);
    if e.Some? {
      return e.value, finalPath;
    }
    exit := Finalize(store, fs, r, finalPath, t', [], s0, f0, 80, true);
  }

  /** A run of a registered job, from the first checkpoint to its exit. */
  method RunRegistered(store: JobStore, fs: FileSystem, r: Run, ghost s0: StoreState, ghost f0: map<string, nat>)
    returns (exit: Exit, finalPath: string, ghost inOrder: bool)
    requires store.Valid() && Inv(r, s0, store.Model(), f0, fs.files, [], 0, true)
    requires FlagAt(r, s0, store.Model(), 0)
    modifies store, fs
    ensures exit == RunOutcome(r, s0)
    ensures store.Valid() && Outcome(r, s0, store.Model(), f0, fs.files, exit, finalPath, inOrder)
    ensures TotalHolds(r) ==> inOrder
  {
    finalPath, inOrder := r.outputPath, true;
    var e, speed, plan, t := Begin(store, fs, r, s0, f0);
    if e.Some? {
      return e.value, finalPath, inOrder;
    }
    RouteIff(r.options.transformation, r.options.filter, speed, r.ext.brightness, r.ext.contrast);
    if plan.route.FramePath? {
      exit, finalPath, inOrder := FrameRoute(store, fs, r, plan.route.intermediate, speed, t, s0, f0);
    } else {
      exit, finalPath := DirectRoute(store, fs, r, FfmpegPassApplied(plan), t, s0, f0);
    }
  }

  /**
   * `process_video_background`. A job without a registry entry is failed at once.
   * Otherwise the run never touches another job, nor any file outside its outputs and
   * temporary files; it ends failed with the error of the step that failed, or at a
   * checkpoint that saw the cancel flag (set by a request during the run, or before it),
   * or completed with a non-empty final file. A stopped or completed run leaves no
   * temporary file, and while the frame total is not exceeded progress never goes down.
   */
  method ProcessVideoBackground(store: JobStore, fs: FileSystem, r: Run) returns (exit: Exit, finalPath: string)
    requires store.Valid() && WellFormed(r)
    modifies store, fs
    ensures store.Valid()
    ensures Untouched(r.jobId, old(store.Model()), store.Model())
    ensures SameOutside(r, old(fs.files), fs.files)
    ensures exit.NotInitialized? <==> r.jobId !in old(store.active)
    ensures r.jobId in old(store.active) ==> exit == RunOutcome(r, old(store.Model()))
    ensures exit.NotInitialized? ==>
      store.Model() == StoreComplete(old(store.Model()), r.jobId, None, Some(NotInitializedError)) && fs.files == old(fs.files)
    ensures exit.Aborted? ==> FailedWith(store.Model(), r.jobId, exit.error)
    ensures exit.Stopped? ==> CancelledByRequest(r, old(store.Model()), store.Model()) && store.active[r.jobId]
    ensures exit.Stopped? ==> r.jobId in old(store.active) && (old(store.active)[r.jobId] || r.ext.cancelAt.Some?)
    ensures exit.Finished? ==> finalPath == FinalPath(r) && finalPath in fs.files && fs.files[finalPath] > 0
    ensures exit.Finished? ==>
      Done(r, old(store.Model()), store.Model(), old(fs.files), fs.files, finalPath, exit.outputFilename, TotalHolds(r))
    ensures exit.Stopped? || exit.Finished? ==> TempsGone(r, old(fs.files), fs.files)
    ensures TotalHolds(r) ==> NonDecreasing(Reports(store.events[|old(store.events)|..]))
  {
    ghost var s0, f0 := store.Model(), fs.files;
    finalPath := r.outputPath;
    if r.jobId !in store.active {
      assert Untouched(r.jobId, s0, s0) by {
        assert s0.events[..|s0.events|] == s0.events;
      }
      UntouchedAfter(r.jobId, s0, s0, Complete(r.jobId, None, Some(NotInitializedError)));
      NothingReported(s0.events, JobCompleted(r.jobId, Failed, None, Some(NotInitializedError)));
      store.CompleteJob(r.jobId, None, Some(NotInitializedError));
      return NotInitialized, finalPath;
    }
    InvAtStart(r, s0, f0);
    ghost var inOrder;
    exit, finalPath, inOrder := RunRegistered(store, fs, r, s0, f0);
  }
}
