/**
 * The native death-frame probe: a staged driver that presses its way to one trace render, asks for
 * one capture, and publishes a report whose timings must pass the report's own validator.
 */
module DeathProbe {
  import opened Basics

  const TRACE_SETTLE_FRAMES: u8 := 2
  const MIN_VIEWPORT_WIDTH: nat := 1_280
  const MIN_VIEWPORT_HEIGHT: nat := 720
  const MAX_VIEWPORT_WIDTH: nat := 7_680
  const MAX_VIEWPORT_HEIGHT: nat := 4_320

  datatype Stage =
    | AwaitingInitialRender
    | AwaitingFocus
    | AwaitingActivation
    | AwaitingTraceRender
    | AwaitingCapture
    | Complete
    | Failed

  datatype Command = InspectTrace | OtherCommand(ordinal: nat)

  /** What one frame shows the driver; times are nanoseconds on the monotonic clock. */
  datatype Frame = Frame(
    polledAt: nat,
    stampedAt: nat,
    window: bool,
    commands: seq<Command>,
    ready: bool,
    focused: Option<u16>)

  /** A captured screenshot; `published` says whether encoding and both file writes succeed. */
  datatype Capture = Capture(width: nat, height: nat, capturedAt: nat, published: bool)

  /** What stays fixed for one probe; `soundPayload` is the verdict on the report's untimed, unsized fields. */
  datatype Config = Config(
    modelReadyAt: nat,
    timeout: nat,
    expectedFocus: u16,
    width: nat,
    height: nat,
    soundPayload: bool)

  datatype Signal =
    | Quiet
    | PressTab
    | ReleaseTabPressEnter
    | ReleaseEnter
    | RequestCapture
    | Exit(success: bool)

  datatype Probe = Probe(
    stage: Stage,
    renderReadyAt: Option<nat>,
    focusAt: Option<nat>,
    activationAt: Option<nat>,
    observedFocus: Option<u16>,
    notReadySeen: bool,
    settled: u8)

  datatype Step = Step(probe: Probe, signal: Signal)

  const INITIAL := Probe(AwaitingInitialRender, None, None, None, None, false, 0)

  function Fail(p: Probe): Step {
    Step(p.(stage := Failed), Exit(false))
  }

  predicate TimedOut(c: Config, f: Frame) {
    f.polledAt > c.modelReadyAt + c.timeout
  }

  function Drive(c: Config, p: Probe, f: Frame): Step {
    if p.stage.Complete? || p.stage.Failed? then Step(p, Quiet)
    else if TimedOut(c, f) then Fail(p)
    else if !f.window then Step(p, Quiet)
    else if p.stage.AwaitingActivation? then Activate(p, f)
    else if f.commands != [] then Fail(p)
    else
      match p.stage
      case AwaitingInitialRender =>
        if f.ready then Step(p.(renderReadyAt := Some(f.stampedAt), stage := AwaitingFocus), PressTab) else Step(p, Quiet)
      case AwaitingFocus => Focus(c, p, f)
      case AwaitingTraceRender => Settle(p, f)
      case _ => Step(p, Quiet)
  }

  function Focus(c: Config, p: Probe, f: Frame): Step {
    if f.focused.None? then Step(p, Quiet)
    else if f.focused.value != c.expectedFocus then Fail(p)
    else Step(p.(observedFocus := f.focused, focusAt := Some(f.stampedAt), stage := AwaitingActivation), ReleaseTabPressEnter)
  }

  function Activate(p: Probe, f: Frame): Step {
    if f.commands == [] then Step(p, Quiet)
    else if f.commands != [InspectTrace] then Fail(p)
    else Step(p.(activationAt := Some(f.stampedAt), stage := AwaitingTraceRender), ReleaseEnter)
  }

  function Settle(p: Probe, f: Frame): Step {
    if !f.ready then Step(p.(notReadySeen := true, settled := 0), Quiet)
    else if !p.notReadySeen then Step(p, Quiet)
    else
      var settled: u8 := if p.settled == 0xFF then 0xFF else p.settled + 1;
      if settled >= TRACE_SETTLE_FRAMES then Step(p.(settled := settled, stage := AwaitingCapture), RequestCapture)
      else Step(p.(settled := settled), Quiet)
  }

  // ----- the report -----

  function SaturatingAdd(a: u64, b: u64): u64 {
    if a + b > U64_MAX then U64_MAX else a + b
  }

  /** Whole microseconds from `start` to `end`, at least one, saturating at 64 bits. */
  function ElapsedMicros(start: nat, end: nat): (micros: u64)
    ensures micros >= 1
  {
    var whole := (if end < start then 0 else end - start) / 1_000;
    Max(if whole > U64_MAX then U64_MAX else whole, 1)
  }

  datatype Timing = Timing(toRender: u64, toFocus: u64, toActivation: u64, toCapture: u64, total: u64) {
    predicate Validate() {
      && toRender != 0 && toFocus != 0 && toActivation != 0 && toCapture != 0
      && total >= toRender
      && total >= toCapture
      && total >= SaturatingAdd(SaturatingAdd(SaturatingAdd(toRender, toFocus), toActivation), toCapture)
    }
  }

  function Timed(t0: nat, t1: nat, t2: nat, t3: nat, t4: nat): Timing {
    Timing(ElapsedMicros(t0, t1), ElapsedMicros(t1, t2), ElapsedMicros(t2, t3), ElapsedMicros(t3, t4), ElapsedMicros(t0, t4))
  }

  predicate SoundReport(c: Config, p: Probe, capturedAt: nat) {
    && p.observedFocus == Some(1)
    && p.renderReadyAt.Some? && p.focusAt.Some? && p.activationAt.Some?
    && c.soundPayload
    && MIN_VIEWPORT_WIDTH <= c.width <= MAX_VIEWPORT_WIDTH
    && MIN_VIEWPORT_HEIGHT <= c.height <= MAX_VIEWPORT_HEIGHT
    && Timed(c.modelReadyAt, p.renderReadyAt.value, p.focusAt.value, p.activationAt.value, capturedAt).Validate()
  }

  function Publish(c: Config, p: Probe, capture: Capture): Step {
    if p.stage.AwaitingCapture?
       && capture.width == c.width && capture.height == c.height
       && SoundReport(c, p, capture.capturedAt)
       && capture.published
    then Step(p.(stage := Complete), Exit(true))
    else Fail(p)
  }

  class NativeDeathFrameProbeRuntime {
    const config: Config
    var stage: Stage
    var renderReadyAt: Option<nat>
    var focusAt: Option<nat>
    var activationAt: Option<nat>
    var observedFocus: Option<u16>
    var notReadySeen: bool
    var settled: u8

    function View(): Probe
      reads this
    {
      Probe(stage, renderReadyAt, focusAt, activationAt, observedFocus, notReadySeen, settled)
    }

    constructor (config: Config)
      ensures View() == INITIAL && this.config == config
    {
      this.config := config;
      stage, observedFocus, notReadySeen, settled := AwaitingInitialRender, None, false, 0;
      renderReadyAt, focusAt, activationAt := None, None, None;
    }

    method FailProbe() returns (signal: Signal)
      modifies this`stage
      ensures Step(View(), signal) == Fail(old(View()))
    {
      stage := Failed;
      return Exit(false);
    }

    method DriveFrame(f: Frame) returns (signal: Signal)
      modifies this
      ensures Step(View(), signal) == Drive(config, old(View()), f)
    {
      if stage.Complete? || stage.Failed? { return Quiet; }
      if TimedOut(config, f) {
        signal := FailProbe();
        return;
      }
      if !f.window { return Quiet; }
      match stage {
        case AwaitingInitialRender =>
          if f.commands != [] {
            signal := FailProbe();
          } else if f.ready {
            renderReadyAt := Some(f.stampedAt);
            stage := AwaitingFocus;
            signal := PressTab;
          } else {
            signal := Quiet;
          }
        case AwaitingFocus => signal := FocusFrame(f);
        case AwaitingActivation => signal := ActivationFrame(f);
        case AwaitingTraceRender => signal := TraceFrame(f);
        case AwaitingCapture =>
          if f.commands != [] {
            signal := FailProbe();
          } else {
            signal := Quiet;
          }
      }
    }

    method FocusFrame(f: Frame) returns (signal: Signal)
      modifies this
      ensures Step(View(), signal) == if f.commands != [] then Fail(old(View())) else Focus(config, old(View()), f)
    {
      if f.commands != [] {
        signal := FailProbe();
        return;
      }
      if f.focused.None? { return Quiet; }
      if f.focused.value != config.expectedFocus {
        signal := FailProbe();
        return;
      }
      observedFocus := f.focused;
      focusAt := Some(f.stampedAt);
      stage := AwaitingActivation;
      return ReleaseTabPressEnter;
    }

    method ActivationFrame(f: Frame) returns (signal: Signal)
      modifies this
      ensures Step(View(), signal) == Activate(old(View()), f)
    {
      if f.commands == [] { return Quiet; }
      if |f.commands| != 1 || f.commands[0] != InspectTrace {
        signal := FailProbe();
        return;
      }
      assert f.commands == [InspectTrace];
      activationAt := Some(f.stampedAt);
      stage := AwaitingTraceRender;
      return ReleaseEnter;
    }

    method TraceFrame(f: Frame) returns (signal: Signal)
      modifies this
      ensures Step(View(), signal) == if f.commands != [] then Fail(old(View())) else Settle(old(View()), f)
    {
      if f.commands != [] {
        signal := FailProbe();
        return;
      }
      if !f.ready {
        notReadySeen := true;
        settled := 0;
        return Quiet;
      }
      if !notReadySeen { return Quiet; }
      if settled != 0xFF {
        settled := settled + 1;
      }
      if settled >= TRACE_SETTLE_FRAMES {
        stage := AwaitingCapture;
        return RequestCapture;
      }
      return Quiet;
    }

    method PublishCapture(capture: Capture) returns (signal: Signal)
      modifies this`stage
      ensures Step(View(), signal) == Publish(config, old(View()), capture)
    {
      if stage.AwaitingCapture?
         && capture.width == config.width && capture.height == config.height
         && SoundReport(config, View(), capture.capturedAt)
         && capture.published
      {
        stage := Complete;
        return Exit(true);
      }
      signal := FailProbe();
    }
  }
}
