/**
 * Properties of `RunOutcome`, the exit a run of `process_video_background` takes: what a
 * cancellation request can change, when a run completes, and which error a failing stage
 * leaves.
 */
module Runs {
  import opened Common
  import opened Paths
  import opened Jobs
  import opened Stages
  import opened Pipeline

  /** The same run with no cancellation request. */
  function Unrequested(r: Run): Run {
    r.(ext := r.ext.(cancelAt := None))
  }

  /** The flag of the run's job was not set when the run started. */
  predicate ClearAtStart(r: Run, s0: StoreState) {
    !(r.jobId in s0.active && s0.active[r.jobId])
  }

  // ----- a cancellation request only ever turns the outcome into a stop -----

  lemma {:induction false} LoopRequestOnlyStops(r: Run, s0: StoreState, i: nat, t: nat)
    requires i <= |r.ext.frames|
    ensures LoopOutcome(r, s0, i, t) == Halt(Stopped) || LoopOutcome(r, s0, i, t) == LoopOutcome(Unrequested(r), s0, i, t)
    decreases |r.ext.frames| - i
  {
    var u := Unrequested(r);
    if !FlagBefore(r, s0, t + 1) && i < |r.ext.frames| {
      assert ReportsFrame(u, i) == ReportsFrame(r, i);
      LoopRequestOnlyStops(r, s0, i + 1, t + 1 + (if ReportsFrame(r, i) then 1 else 0));
    }
  }

  lemma FrameStagesRequestOnlyStops(r: Run, s0: StoreState, intermediate: bool, t: nat)
    ensures var (a, b) := (FrameStagesOutcome(r, s0, intermediate, t), FrameStagesOutcome(Unrequested(r), s0, intermediate, t));
      a == Halt(Stopped) || a == b
  {
    var u := Unrequested(r);
    assert PrepassOutcome(u, intermediate, t) == PrepassOutcome(r, intermediate, t);
    match PrepassOutcome(r, intermediate, t)
    case Halt(_) =>
    case Next(t1) =>
      assert OpenOutcome(u, FrameSource(u, intermediate), t1) == OpenOutcome(r, FrameSource(r, intermediate), t1);
      match OpenOutcome(r, FrameSource(r, intermediate), t1)
      case Halt(_) =>
      case Next(t2) =>
        LoopRequestOnlyStops(r, s0, 0, t2);
  }

  lemma CompleteRequestOnlyStops(r: Run, s0: StoreState, final: string, size: nat, t: nat)
    ensures var (a, b) := (CompleteOutcome(r, s0, final, size, t), CompleteOutcome(Unrequested(r), s0, final, size, t));
      a == Stopped || a == b
  {
  }

  lemma EncodeSpeedRequestOnlyStops(r: Run, s0: StoreState, speed: real, t: nat)
    ensures var (a, b) := (EncodeSpeedOutcome(r, s0, speed, t), EncodeSpeedOutcome(Unrequested(r), s0, speed, t));
      a == Stopped || a == b
  {
    var u := Unrequested(r);
    assert EncodeOutcome(u, map[TempOpencv(u) := u.ext.writerBytes]) == EncodeOutcome(r, map[TempOpencv(r) := r.ext.writerBytes]);
    assert SpeedOutcome(u, speed, t) == SpeedOutcome(r, speed, t);
    match SpeedOutcome(r, speed, t)
    case Halt(_) =>
    case Next(t1) =>
      if EncodeOutcome(r, map[TempOpencv(r) := r.ext.writerBytes]).None? {
        if speed != 1.0 {
          CompleteRequestOnlyStops(r, s0, SpeedAdjusted(r), r.ext.speedPass.size, t1);
        } else {
          CompleteRequestOnlyStops(r, s0, r.outputPath, r.ext.finalEncode.size, t1);
        }
      }
  }

  lemma RouteRequestOnlyStops(r: Run, s0: StoreState, plan: StagePlan, speed: real, t: nat)
    ensures var (a, b) := (RouteOutcome(r, s0, plan, speed, t), RouteOutcome(Unrequested(r), s0, plan, speed, t));
      a == Stopped || a == b
  {
    var u := Unrequested(r);
    if plan.route.FramePath? {
      FrameStagesRequestOnlyStops(r, s0, plan.route.intermediate, t);
      match FrameStagesOutcome(r, s0, plan.route.intermediate, t)
      case Halt(_) =>
      case Next(t3) =>
        EncodeSpeedRequestOnlyStops(r, s0, speed, t3);
    } else {
      var applied := FfmpegPassApplied(plan);
      assert DirectOutcome(u, applied, t) == DirectOutcome(r, applied, t);
      match DirectOutcome(r, applied, t)
      case Halt(_) =>
      case Next(t1) =>
        CompleteRequestOnlyStops(r, s0, r.outputPath, (if applied then r.ext.directEncode else r.ext.streamCopy).size, t1);
    }
  }

  /**
   * A cancellation request either stops the run or changes nothing about how it ends:
   * the request is only ever seen at a checkpoint, and every other decision of the run
   * is made on what the engines return.
   */
  lemma RequestOnlyStops(r: Run, s0: StoreState)
    ensures RunOutcome(r, s0) == Stopped || RunOutcome(r, s0) == RunOutcome(Unrequested(r), s0)
  {
    var u := Unrequested(r);
    match StartOutcome(r, s0)
    case Halt(_) =>
    case Next(t1) =>
      match PrepareOutcome(r, s0, t1)
      case Halt(_) =>
      case Next(t2) =>
        var speed := r.ext.speed.GetOr(1.0);
        var planned := Plan(r.options.transformation, r.options.filter, speed, r.ext.brightness, r.ext.contrast);
        if planned.Ok? {
          RouteRequestOnlyStops(r, s0, planned.value, speed, t2 + 1);
        }
  }

  // ----- without a request the run never stops -----

  lemma {:induction false} LoopNeverStops(r: Run, s0: StoreState, i: nat, t: nat)
    requires i <= |r.ext.frames| && ClearAtStart(r, s0) && r.ext.cancelAt.None?
    ensures LoopOutcome(r, s0, i, t).Next?
    decreases |r.ext.frames| - i
  {
    if i < |r.ext.frames| {
      LoopNeverStops(r, s0, i + 1, t + 1 + (if ReportsFrame(r, i) then 1 else 0));
    }
  }

  lemma FrameStagesNeverStop(r: Run, s0: StoreState, intermediate: bool, t: nat)
    requires ClearAtStart(r, s0) && r.ext.cancelAt.None?
    ensures FrameStagesOutcome(r, s0, intermediate, t) != Halt(Stopped)
  {
    match PrepassOutcome(r, intermediate, t)
    case Halt(_) =>
    case Next(t1) =>
      match OpenOutcome(r, FrameSource(r, intermediate), t1)
      case Halt(_) =>
      case Next(t2) =>
        LoopNeverStops(r, s0, 0, t2);
  }

  lemma RouteNeverStops(r: Run, s0: StoreState, plan: StagePlan, speed: real, t: nat)
    requires ClearAtStart(r, s0) && r.ext.cancelAt.None?
    ensures RouteOutcome(r, s0, plan, speed, t) != Stopped
  {
    if plan.route.FramePath? {
      FrameStagesNeverStop(r, s0, plan.route.intermediate, t);
    }
  }

  /** With no request and the flag clear at the start, no checkpoint stops the run. */
  lemma NeverStopsUnrequested(r: Run, s0: StoreState)
    requires ClearAtStart(r, s0) && r.ext.cancelAt.None?
    ensures RunOutcome(r, s0) != Stopped
  {
    match StartOutcome(r, s0)
    case Halt(_) =>
    case Next(t1) =>
      match PrepareOutcome(r, s0, t1)
      case Halt(_) =>
      case Next(t2) =>
        var speed := r.ext.speed.GetOr(1.0);
        var planned := Plan(r.options.transformation, r.options.filter, speed, r.ext.brightness, r.ext.contrast);
        if planned.Ok? {
          RouteNeverStops(r, s0, planned.value, speed, t2 + 1);
        }
  }

  /** A flag already set when the run starts stops it at the first checkpoint. */
  lemma CancelledBeforeStartStops(r: Run, s0: StoreState)
    requires !ClearAtStart(r, s0)
    ensures RunOutcome(r, s0) == Stopped
  {
  }

  /**
   * A speed field `float` rejects fails the job at the start with Python's message, which
   * quotes the field as `repr` does; a field with no quote, backslash or control character
   * appears between single quotes as typed.
   */
  lemma UnparsableSpeedAborts(r: Run, s0: StoreState)
    requires ClearAtStart(r, s0) && r.ext.cancelAt != Some(0) && r.ext.speed.None?
    requires forall i :: 0 <= i < |r.options.speed| ==>
      r.options.speed[i] != '\'' && r.options.speed[i] != '\\' && r.options.speed[i] >= ' ' && r.options.speed[i] as int != 0x7f
    ensures RunOutcome(r, s0) == Aborted(UnexpectedPrefix + FloatParsePrefix + "'" + r.options.speed + "'")
  {
    assert !FlagBefore(r, s0, 1);
    assert StartOutcome(r, s0) == Halt(Aborted(UnexpectedPrefix + FloatParseError(r.options.speed)));
    assert RunOutcome(r, s0) == Aborted(UnexpectedPrefix + FloatParseError(r.options.speed));
    ReprPlain(r.options.speed);
  }

  // ----- when a run completes -----

  /** Every engine call succeeds with a non-empty file, and the capture and the writer open. */
  predicate AllSucceed(r: Run) {
    && r.ext.stageA.RunOk? && r.ext.mux.RunOk?
    && r.ext.captureOpened && r.ext.writerOpened && r.ext.writerBytes > 0
    && r.ext.finalEncode.RunOk? && r.ext.finalEncode.size > 0
    && r.ext.speedPass.RunOk? && r.ext.speedPass.size > 0
    && r.ext.directEncode.RunOk? && r.ext.directEncode.size > 0
    && r.ext.streamCopy.RunOk? && r.ext.streamCopy.size > 0
  }

  lemma FrameRouteCompletes(r: Run, s0: StoreState, intermediate: bool, speed: real, t: nat)
    requires ClearAtStart(r, s0) && r.ext.cancelAt.None? && AllSucceed(r) && speed != 0.0
    ensures FrameRouteOutcome(r, s0, intermediate, speed, t) ==
      Finished(Basename(if speed != 1.0 then SpeedAdjusted(r) else r.outputPath))
  {
    var t1 := if intermediate then t + 2 else t;
    assert PrepassOutcome(r, intermediate, t) == Next(t1);
    LoopNeverStops(r, s0, 0, t1 + 1);
  }

  /**
   * A run that no request cancels, whose speed parses to a non-zero number and whose
   * engine calls all succeed completes, and stores the name of the final file
   * `process_video_background` checks.
   */
  lemma CompletesWhenAllSucceed(r: Run, s0: StoreState)
    requires ClearAtStart(r, s0) && r.ext.cancelAt.None? && AllSucceed(r)
    requires r.ext.speed.Some? && r.ext.speed.value != 0.0
    ensures RunOutcome(r, s0) == Finished(Basename(FinalPath(r)))
  {
    var speed := r.ext.speed.value;
    var planned := Plan(r.options.transformation, r.options.filter, speed, r.ext.brightness, r.ext.contrast);
    assert StartOutcome(r, s0) == Next(2);
    assert PrepareOutcome(r, s0, 2) == Next(5);
    assert planned.Ok?;
    assert RunOutcome(r, s0) == RouteOutcome(r, s0, planned.value, speed, 6);
    RouteIff(r.options.transformation, r.options.filter, speed, r.ext.brightness, r.ext.contrast);
    if planned.value.route.FramePath? {
      FrameRouteCompletes(r, s0, planned.value.route.intermediate, speed, 6);
    } else {
      DirectRouteCompletes(r, s0, FfmpegPassApplied(planned.value), 6);
    }
  }

  lemma DirectRouteCompletes(r: Run, s0: StoreState, applied: bool, t: nat)
    requires ClearAtStart(r, s0) && r.ext.cancelAt.None? && AllSucceed(r)
    ensures DirectRouteOutcome(r, s0, applied, t) == Finished(Basename(r.outputPath))
  {
    assert DirectOutcome(r, applied, t) == Next(t + 1);
  }

  /**
   * Without a per-frame filter, a failing ffmpeg encode of a non-empty graph fails the
   * job with the engine's stderr behind the ffmpeg prefix, whatever the request does.
   */
  lemma DirectEncodeFailure(r: Run, s0: StoreState)
    requires ClearAtStart(r, s0) && r.ext.cancelAt.None?
    requires r.ext.speed.Some? && r.options.filter == "none" && r.ext.directEncode.RunErr?
    requires Plan(r.options.transformation, r.options.filter, r.ext.speed.value, r.ext.brightness, r.ext.contrast).Ok?
    requires FfmpegPassApplied(Plan(r.options.transformation, r.options.filter, r.ext.speed.value, r.ext.brightness, r.ext.contrast).value)
    ensures RunOutcome(r, s0) == Aborted(FfmpegErrorPrefix + r.ext.directEncode.stderr)
  {
    RouteIff(r.options.transformation, r.options.filter, r.ext.speed.value, r.ext.brightness, r.ext.contrast);
  }
}
