/**
 * The stage plan `process_video_background` derives from a job's options before it
 * runs anything: the filter graph of the ffmpeg pass (the transformation, the `eq`
 * colour filter, the timestamp scaling), and the route the job then takes: a stream
 * copy, one direct ffmpeg encode, or the OpenCV per-frame path with its optional
 * intermediate file and speed pass. Also the progress formula of the frame loop.
 */
module Stages {
  import opened Common

  const TransformationNames: set<string> :=
    {"grayscale", "invert", "hflip", "vflip", "rotate90", "rotate180", "rotate270"}

  /** One filter of the ffmpeg filter graph, in the terms of the engine's filter names. */
  datatype FilterOp =
    | Format(pixFmts: string)
    | Negate
    | HFlip
    | VFlip
    | Rotate(angle: string)
    | Eq(params: map<string, real>)
    | SetPts(factor: real)

  /**
   * How the job is carried out once the graph is known.
   * `FramePath(intermediate, speedPass)`: the per-frame path, preceded by an ffmpeg pass
   * writing an intermediate file when the graph is not empty, and followed by a
   * separate speed pass when the speed is not 1.0.
   */
  datatype Route = StreamCopy | DirectEncode | FramePath(intermediate: bool, speedPass: bool)

  datatype StagePlan = StagePlan(graph: seq<FilterOp>, route: Route)

  /** The filter a transformation name adds to the graph; any other name adds none. */
  function TransformOp(transformation: string): (r: Option<FilterOp>)
    ensures r.Some? <==> transformation in TransformationNames
    ensures r.Some? ==> !r.value.Eq? && !r.value.SetPts?
  {
    match transformation
    case "grayscale" => Some(Format("gray"))
    case "invert" => Some(Negate)
    case "hflip" => Some(HFlip)
    case "vflip" => Some(VFlip)
    case "rotate90" => Some(Rotate("PI/2"))
    case "rotate180" => Some(Rotate("PI"))
    case "rotate270" => Some(Rotate("3*PI/2"))
    case _ => None
  }

  /**
   * The `eq` parameters: brightness shifted by -1.0 and contrast as given, each only
   * when its text parsed (`Some`) to a value other than the neutral 1.0.
   */
  function EqParams(brightness: Option<real>, contrast: Option<real>): (r: map<string, real>)
    ensures r.Keys <= {"brightness", "contrast"}
    ensures "brightness" in r <==> brightness.Some? && brightness.value != 1.0
    ensures "brightness" in r ==> r["brightness"] == brightness.value - 1.0
    ensures "contrast" in r <==> contrast.Some? && contrast.value != 1.0
    ensures "contrast" in r ==> r["contrast"] == contrast.value
  {
    var withBrightness: map<string, real> :=
      if brightness.Some? && brightness.value != 1.0 then map["brightness" := brightness.value - 1.0] else map[];
    if contrast.Some? && contrast.value != 1.0 then withBrightness["contrast" := contrast.value] else withBrightness
  }

  /** Whether the ffmpeg pass scales timestamps: only without a per-frame filter. */
  predicate ScalesTimestamps(filter: string, speed: real) {
    filter == "none" && speed != 1.0
  }

  /**
   * The plan for one job. Building `setpts` divides by the speed, so a zero speed
   * without a per-frame filter fails with Python's division message.
   */
  function Plan(transformation: string, filter: string, speed: real,
                brightness: Option<real>, contrast: Option<real>): (r: Result<StagePlan>)
    ensures r.Err? <==> filter == "none" && speed == 0.0
  {
    if ScalesTimestamps(filter, speed) && speed == 0.0 then Err("float division by zero")
    else
      var t := TransformOp(transformation);
      var eq := EqParams(brightness, contrast);
      var graph :=
        (if t.Some? then [t.value] else [])
        + (if eq != map[] then [Eq(eq)] else [])
        + (if ScalesTimestamps(filter, speed) then [SetPts(1.0 / speed)] else []);
      var route :=
        if filter != "none" then FramePath(graph != [], speed != 1.0)
        else if graph != [] then DirectEncode
        else StreamCopy;
      Ok(StagePlan(graph, route))
  }

  /** The value of `ffmpeg_filters_applied_this_pass` for a plan. */
  predicate FfmpegPassApplied(p: StagePlan) {
    p.graph != []
  }

  /**
   * The ffmpeg pass applies exactly when a named transformation is requested, the
   * `eq` map is not empty, or timestamps are scaled.
   */
  lemma PassAppliedIff(transformation: string, filter: string, speed: real,
                       brightness: Option<real>, contrast: Option<real>)
    requires Plan(transformation, filter, speed, brightness, contrast).Ok?
    ensures FfmpegPassApplied(Plan(transformation, filter, speed, brightness, contrast).value)
      <==> transformation in TransformationNames || EqParams(brightness, contrast) != map[] || ScalesTimestamps(filter, speed)
  {
    var p := Plan(transformation, filter, speed, brightness, contrast).value;
    if transformation in TransformationNames {
      assert p.graph[0] == TransformOp(transformation).value;
    } else if EqParams(brightness, contrast) != map[] {
      assert p.graph[0] == Eq(EqParams(brightness, contrast));
    } else if ScalesTimestamps(filter, speed) {
      assert p.graph == [SetPts(1.0 / speed)];
    }
  }

  /**
   * The three routes: the per-frame path exactly when a filter is selected, a direct
   * encode exactly when there is none but the ffmpeg pass applies, and a stream copy
   * exactly when neither. The speed pass runs only on the per-frame path, exactly when
   * the speed is not 1.0, and the per-frame path is preceded by an intermediate file
   * exactly when the ffmpeg pass applies.
   */
  lemma RouteIff(transformation: string, filter: string, speed: real,
                 brightness: Option<real>, contrast: Option<real>)
    requires Plan(transformation, filter, speed, brightness, contrast).Ok?
    ensures var p := Plan(transformation, filter, speed, brightness, contrast).value;
      && (p.route.FramePath? <==> filter != "none")
      && (p.route == DirectEncode <==> filter == "none" && FfmpegPassApplied(p))
      && (p.route == StreamCopy <==> filter == "none" && !FfmpegPassApplied(p))
      && (p.route.FramePath? ==> (p.route.speedPass <==> speed != 1.0))
      && (p.route.FramePath? ==> (p.route.intermediate <==> FfmpegPassApplied(p)))
  {
  }

  /** A stream copy happens exactly when every option has its neutral value or is ignored. */
  lemma StreamCopyIff(transformation: string, filter: string, speed: real,
                      brightness: Option<real>, contrast: Option<real>)
    requires Plan(transformation, filter, speed, brightness, contrast).Ok?
    ensures Plan(transformation, filter, speed, brightness, contrast).value.route == StreamCopy
      <==> && transformation !in TransformationNames
           && filter == "none"
           && speed == 1.0
           && (brightness.None? || brightness.value == 1.0)
           && (contrast.None? || contrast.value == 1.0)
  {
    RouteIff(transformation, filter, speed, brightness, contrast);
    PassAppliedIff(transformation, filter, speed, brightness, contrast);
    var eq := EqParams(brightness, contrast);
    if brightness.Some? && brightness.value != 1.0 {
      assert "brightness" in eq;
    }
    if contrast.Some? && contrast.value != 1.0 {
      assert "contrast" in eq;
    }
  }

  /**
   * The graph keeps the order transformation, `eq`, `setpts`, each at most once, and
   * the `setpts` factor is the reciprocal of the speed.
   */
  lemma GraphShape(transformation: string, filter: string, speed: real,
                   brightness: Option<real>, contrast: Option<real>)
    requires Plan(transformation, filter, speed, brightness, contrast).Ok?
    ensures var g := Plan(transformation, filter, speed, brightness, contrast).value.graph;
      && |g| <= 3
      && (forall i :: 0 <= i < |g| && g[i].Eq? ==> g[i].params == EqParams(brightness, contrast) && g[i].params != map[])
      && (forall i :: 0 <= i < |g| && g[i].SetPts? ==> i == |g| - 1 && g[i].factor * speed == 1.0)
      && (forall i, j :: 0 <= i < j < |g| && g[i].Eq? ==> g[j].SetPts?)
  {
  }

  /** Selecting `blur` alone runs the per-frame path and nothing else. */
  lemma BlurOnly()
    ensures Plan("none", "blur", 1.0, Some(1.0), Some(1.0)) == Ok(StagePlan([], FramePath(false, false)))
  {
    assert EqParams(Some(1.0), Some(1.0)) == map[];
  }

  /** `blur` with speed 2.0: no ffmpeg pass, the per-frame path, then the speed pass. */
  lemma BlurWithSpeed()
    ensures Plan("none", "blur", 2.0, Some(1.0), Some(1.0)) == Ok(StagePlan([], FramePath(false, true)))
  {
    assert EqParams(Some(1.0), Some(1.0)) == map[];
  }

  /** Without a filter, the speed folds into the ffmpeg pass as `setpts` with factor 1/speed. */
  lemma SpeedWithoutFilter()
    ensures Plan("none", "none", 2.0, None, Some(1.0)) == Ok(StagePlan([SetPts(0.5)], DirectEncode))
  {
    assert EqParams(None, Some(1.0)) == map[];
    var p := Plan("none", "none", 2.0, None, Some(1.0));
    assert p.Ok?;
    assert TransformOp("none") == None;
    assert p.value.graph == [SetPts(1.0 / 2.0)];
    assert 1.0 / 2.0 == 0.5;
  }

  /** Frames between progress reports in the per-frame loop. */
  const ReportEvery := 30

  /**
   * The report of the frame loop after `frameCount` frames of `totalFrames`: only every
   * 30 frames and only with a known positive total, at 45 plus the done share of 30.
   */
  function FrameProgress(frameCount: nat, totalFrames: int): (r: Option<int>)
    ensures r.Some? <==> frameCount % ReportEvery == 0 && totalFrames > 0
    ensures r.Some? ==> r.value * totalFrames <= 45 * totalFrames + frameCount * 30 < (r.value + 1) * totalFrames
  {
    if frameCount % ReportEvery == 0 && totalFrames > 0 then Some(45 + frameCount * 30 / totalFrames) else None
  }

  /** While the count stays within the container's frame total, reports lie in [45, 75]. */
  lemma FrameProgressBounds(frameCount: nat, totalFrames: int)
    requires FrameProgress(frameCount, totalFrames).Some?
    requires frameCount <= totalFrames
    ensures 45 <= FrameProgress(frameCount, totalFrames).value <= 75
  {
    DivBelow(frameCount * 30, 30, totalFrames);
  }

  /** Later reports of the same loop are never lower. */
  lemma FrameProgressMonotone(a: nat, b: nat, totalFrames: int)
    requires a <= b
    requires FrameProgress(a, totalFrames).Some? && FrameProgress(b, totalFrames).Some?
    ensures FrameProgress(a, totalFrames).value <= FrameProgress(b, totalFrames).value
  {
    DivMonotone(a * 30, b * 30, totalFrames);
  }

  /** Multiplication by a positive factor reflects strict order. */
  lemma MulStrict(a: int, b: int, d: int)
    requires d > 0 && a * d < b * d
    ensures a < b
  {
  }

  /** Floor division by a positive divisor keeps a bound `x <= k * d` as `x / d <= k`. */
  lemma DivBelow(x: nat, k: nat, d: int)
    requires d > 0 && x <= k * d
    ensures x / d <= k
  {
    assert (x / d) * d <= x < (k + 1) * d;
    MulStrict(x / d, k + 1, d);
  }

  /** Floor division by a positive divisor is monotone. */
  lemma DivMonotone(x: nat, y: nat, d: int)
    requires d > 0 && x <= y
    ensures x / d <= y / d
  {
    assert (x / d) * d <= x <= y < (y / d + 1) * d;
    MulStrict(x / d, y / d + 1, d);
  }

  /** A container reporting fewer frames than it holds drives the progress past 100. */
  lemma FrameProgressOvershoot()
    ensures FrameProgress(30, 1) == Some(945)
  {
  }
}
