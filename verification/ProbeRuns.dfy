/** What the probe's stage says about its whole history, and exactly when its timings are accepted. */
module ProbeRuns {
  import opened Basics
  import opened DeathProbe

  datatype Event = FrameCall(frame: Frame) | CaptureCall(capture: Capture)

  function Apply(c: Config, p: Probe, e: Event): Step {
    match e
    case FrameCall(frame) => Drive(c, p, frame)
    case CaptureCall(capture) => Publish(c, p, capture)
  }

  /** The probe after the first `i` events; past the end it stays at the last one. */
  function At(c: Config, run: seq<Event>, i: nat): Probe {
    if i == 0 then INITIAL
    else if i <= |run| then Apply(c, At(c, run, i - 1), run[i - 1]).probe
    else At(c, run, i - 1)
  }

  // ----- the frames that matter -----

  predicate InTime(c: Config, e: Event) { e.FrameCall? && !TimedOut(c, e.frame) }

  predicate Live(c: Config, e: Event) { InTime(c, e) && e.frame.window }

  /** A frame without a primary window, which the driver passes over. */
  predicate Skipped(c: Config, e: Event) { InTime(c, e) && !e.frame.window }

  predicate Silent(c: Config, e: Event) { Live(c, e) && e.frame.commands == [] }

  predicate Lit(c: Config, e: Event) { Silent(c, e) && e.frame.ready }

  predicate Dark(c: Config, e: Event) { Silent(c, e) && !e.frame.ready }

  predicate Focused(c: Config, e: Event) { Silent(c, e) && e.frame.focused == Some(c.expectedFocus) }

  predicate Activated(c: Config, e: Event) { Live(c, e) && e.frame.commands == [InspectTrace] }

  /** Progress through the stages; a complete probe can still fail, on a capture it did not await. */
  function Rank(stage: Stage): nat {
    match stage
    case AwaitingInitialRender => 0
    case AwaitingFocus => 1
    case AwaitingActivation => 2
    case AwaitingTraceRender => 3
    case AwaitingCapture => 4
    case Complete => 5
    case Failed => 5
  }

  /** The settle counters move only in the trace stage, and a count needs a frame that was not ready. */
  predicate Counted(p: Probe) {
    && (Rank(p.stage) < 3 ==> !p.notReadySeen && p.settled == 0)
    && (p.stage.AwaitingTraceRender? ==> p.settled < TRACE_SETTLE_FRAMES && (p.settled > 0 ==> p.notReadySeen))
  }

  /** How each stage can be entered, and what each frame of the trace stage does to its counters. */
  lemma StageStep(c: Config, p: Probe, e: Event)
    requires Counted(p)
    ensures var q := Apply(c, p, e).probe;
            && Counted(q)
            && Rank(p.stage) <= Rank(q.stage)
            && (q.stage.AwaitingInitialRender? ==> p.stage == q.stage)
            && (q.stage.AwaitingFocus? ==> p.stage == q.stage || (p.stage.AwaitingInitialRender? && Lit(c, e)))
            && (q.stage.AwaitingActivation? ==> p.stage == q.stage || (p.stage.AwaitingFocus? && Focused(c, e)))
            && (q.stage.AwaitingTraceRender? ==> p.stage == q.stage || (p.stage.AwaitingActivation? && Activated(c, e)))
            && (q.stage.AwaitingCapture? ==>
                  p.stage == q.stage || (p.stage.AwaitingTraceRender? && p.settled == 1 && Lit(c, e)))
  {
  }

  lemma SettleStep(c: Config, p: Probe, e: Event)
    requires Counted(p) && p.stage.AwaitingTraceRender? && Apply(c, p, e).probe.stage.AwaitingTraceRender?
    ensures var q := Apply(c, p, e).probe;
            || (Skipped(c, e) && q == p)
            || (Dark(c, e) && q.notReadySeen && q.settled == 0)
            || (Lit(c, e) && q.notReadySeen == p.notReadySeen && q.settled == if p.notReadySeen then p.settled + 1 else 0)
  {
  }

  lemma {:induction false} RunCounted(c: Config, run: seq<Event>, i: nat)
    requires i <= |run|
    ensures Counted(At(c, run, i))
  {
    if i > 0 {
      RunCounted(c, run, i - 1);
      StageStep(c, At(c, run, i - 1), run[i - 1]);
    }
  }

  function RankAt(c: Config, run: seq<Event>, j: nat): nat { Rank(At(c, run, j).stage) }

  lemma RankStep(c: Config, run: seq<Event>, j: nat)
    requires j < |run|
    ensures RankAt(c, run, j) <= RankAt(c, run, j + 1)
  {
    RunCounted(c, run, j);
    StageStep(c, At(c, run, j), run[j]);
  }

  lemma {:induction false} RankRises(c: Config, run: seq<Event>, i: nat, j: nat)
    requires i <= j <= |run|
    ensures RankAt(c, run, i) <= RankAt(c, run, j)
    decreases j
  {
    if i < j {
      RankRises(c, run, i, j - 1);
      RankStep(c, run, j - 1);
    }
  }

  // ----- the history behind each stage -----

  /** A frame that is passed over or carries no command. */
  predicate Calm(c: Config, e: Event) { Skipped(c, e) || Silent(c, e) }

  /** Nothing has been ready yet. */
  predicate Waiting(c: Config, run: seq<Event>, j: nat)
    requires j <= |run|
  {
    forall i :: 0 <= i < j ==> Skipped(c, run[i]) || Dark(c, run[i])
  }

  /** The first ready frame is at `a`, and no focus has shown since. */
  predicate Rendered(c: Config, run: seq<Event>, j: nat, a: nat)
    requires j <= |run|
  {
    && a < j && Waiting(c, run, a) && Lit(c, run[a])
    && forall i :: a < i < j ==> Skipped(c, run[i]) || (Silent(c, run[i]) && run[i].frame.focused.None?)
  }

  /** The first focus shown is the expected one, at `b`, and no command has followed. */
  predicate FocusedSince(c: Config, run: seq<Event>, j: nat, a: nat, b: nat)
    requires j <= |run|
  {
    && b < j && Rendered(c, run, b, a) && Focused(c, run[b])
    && forall i :: b < i < j ==> Calm(c, run[i])
  }

  /** The first command frame is at `k` and holds just InspectTrace; no other command has followed. */
  predicate ActivatedSince(c: Config, run: seq<Event>, j: nat, a: nat, b: nat, k: nat)
    requires j <= |run|
  {
    && k < j && FocusedSince(c, run, k, a, b) && Activated(c, run[k])
    && forall i :: k < i < j ==> Calm(c, run[i])
  }

  /** Frames strictly between the two are all passed over. */
  predicate SkippedBetween(c: Config, run: seq<Event>, lo: nat, hi: nat)
    requires hi <= |run|
  {
    forall m :: lo < m < hi ==> Skipped(c, run[m])
  }

  /** A frame that was not ready, then two ready ones, with only skipped frames around them. */
  predicate Settled(c: Config, run: seq<Event>, j: nat, d: nat, l: nat, m: nat)
    requires j <= |run|
  {
    && d < l < m < j
    && Dark(c, run[d]) && Lit(c, run[l]) && Lit(c, run[m])
    && SkippedBetween(c, run, d, l) && SkippedBetween(c, run, l, m)
  }

  /** The whole script that leads to the capture. */
  predicate Script(c: Config, run: seq<Event>, j: nat, a: nat, b: nat, k: nat, d: nat, l: nat, m: nat)
    requires j <= |run|
  {
    ActivatedSince(c, run, j, a, b, k) && k < d && Settled(c, run, j, d, l, m)
  }

  // ----- the script leads to its stage -----

  lemma {:induction false} WaitingHolds(c: Config, run: seq<Event>, j: nat)
    requires j <= |run| && Waiting(c, run, j)
    ensures At(c, run, j) == INITIAL
  {
    if j > 0 {
      WaitingHolds(c, run, j - 1);
    }
  }

  lemma {:induction false} RenderedHolds(c: Config, run: seq<Event>, j: nat, a: nat)
    requires j <= |run| && Rendered(c, run, j, a)
    ensures At(c, run, j) == INITIAL.(stage := AwaitingFocus, renderReadyAt := Some(run[a].frame.stampedAt))
  {
    if j == a + 1 {
      WaitingHolds(c, run, a);
    } else {
      RenderedHolds(c, run, j - 1, a);
    }
  }

  lemma {:induction false} FocusedHolds(c: Config, run: seq<Event>, j: nat, a: nat, b: nat)
    requires j <= |run| && FocusedSince(c, run, j, a, b)
    ensures At(c, run, j) == INITIAL.(stage := AwaitingActivation,
                                      renderReadyAt := Some(run[a].frame.stampedAt),
                                      focusAt := Some(run[b].frame.stampedAt),
                                      observedFocus := Some(c.expectedFocus))
  {
    if j == b + 1 {
      RenderedHolds(c, run, b, a);
    } else {
      FocusedHolds(c, run, j - 1, a, b);
    }
  }

  /** In the trace or the capture stage, with the three stamps of these frames. */
  predicate Tracing(c: Config, p: Probe, rendered: Event, focused: Event, activated: Event) {
    && rendered.FrameCall? && focused.FrameCall? && activated.FrameCall?
    && (p.stage.AwaitingTraceRender? || p.stage.AwaitingCapture?)
    && p.renderReadyAt == Some(rendered.frame.stampedAt)
    && p.focusAt == Some(focused.frame.stampedAt)
    && p.activationAt == Some(activated.frame.stampedAt)
    && p.observedFocus == Some(c.expectedFocus)
  }

  lemma {:induction false} ActivatedHolds(c: Config, run: seq<Event>, j: nat, a: nat, b: nat, k: nat)
    requires j <= |run| && ActivatedSince(c, run, j, a, b, k)
    ensures Tracing(c, At(c, run, j), run[a], run[b], run[k])
  {
    if j == k + 1 {
      FocusedHolds(c, run, k, a, b);
    } else {
      ActivatedHolds(c, run, j - 1, a, b, k);
    }
  }

  /** A capture already awaited, or the settle counters as given. */
  predicate Settling(p: Probe, settled: nat) {
    p.stage.AwaitingCapture? || (p.stage.AwaitingTraceRender? && p.notReadySeen && p.settled == settled)
  }

  lemma {:induction false} SkippedKeeps(c: Config, run: seq<Event>, lo: nat, hi: nat)
    requires lo < hi <= |run| && SkippedBetween(c, run, lo, hi)
    ensures At(c, run, hi) == At(c, run, lo + 1)
  {
    if lo + 1 < hi {
      SkippedKeeps(c, run, lo, hi - 1);
    }
  }

  lemma {:induction false} CalmKeepsCapture(c: Config, run: seq<Event>, lo: nat, hi: nat)
    requires lo <= hi <= |run| && At(c, run, lo).stage.AwaitingCapture?
    requires forall i :: lo <= i < hi ==> Calm(c, run[i])
    ensures At(c, run, hi).stage.AwaitingCapture?
  {
    if lo < hi {
      CalmKeepsCapture(c, run, lo, hi - 1);
    }
  }

  lemma DarkStep(c: Config, p: Probe, e: Event)
    requires Dark(c, e) && (p.stage.AwaitingTraceRender? || p.stage.AwaitingCapture?)
    ensures Settling(Apply(c, p, e).probe, 0)
  {
  }

  lemma LitStep(c: Config, p: Probe, e: Event, settled: nat)
    requires Lit(c, e) && settled <= 1 && Settling(p, settled)
    ensures if settled == 0 then Settling(Apply(c, p, e).probe, 1) else Apply(c, p, e).probe.stage.AwaitingCapture?
  {
  }

  lemma SettledHolds(c: Config, run: seq<Event>, j: nat, d: nat, l: nat, m: nat)
    requires j <= |run| && Settled(c, run, j, d, l, m)
    requires At(c, run, d).stage.AwaitingTraceRender? || At(c, run, d).stage.AwaitingCapture?
    requires forall i :: m < i < j ==> Calm(c, run[i])
    ensures At(c, run, j).stage.AwaitingCapture?
  {
    DarkStep(c, At(c, run, d), run[d]);
    SkippedKeeps(c, run, d, l);
    LitStep(c, At(c, run, l), run[l], 0);
    SkippedKeeps(c, run, l, m);
    LitStep(c, At(c, run, m), run[m], 1);
    CalmKeepsCapture(c, run, m + 1, j);
  }

  /** The script leads to the capture stage, and the three stamps are those of its frames. */
  lemma ScriptHolds(c: Config, run: seq<Event>, j: nat, a: nat, b: nat, k: nat, d: nat, l: nat, m: nat)
    requires j <= |run| && Script(c, run, j, a, b, k, d, l, m)
    ensures At(c, run, j).stage.AwaitingCapture?
    ensures Tracing(c, At(c, run, j), run[a], run[b], run[k])
  {
    ActivatedHolds(c, run, j, a, b, k);
    ActivatedHolds(c, run, d, a, b, k);
    SettledHolds(c, run, j, d, l, m);
  }

  // ----- each stage has its script -----

  lemma {:induction false} WaitedBefore(c: Config, run: seq<Event>, j: nat)
    requires j <= |run| && At(c, run, j).stage.AwaitingInitialRender?
    ensures Waiting(c, run, j)
  {
    if j > 0 {
      RunCounted(c, run, j - 1);
      StageStep(c, At(c, run, j - 1), run[j - 1]);
      WaitedBefore(c, run, j - 1);
    }
  }

  lemma {:induction false} RenderedBefore(c: Config, run: seq<Event>, j: nat) returns (a: nat)
    requires j <= |run| && At(c, run, j).stage.AwaitingFocus?
    ensures Rendered(c, run, j, a)
  {
    RunCounted(c, run, j - 1);
    StageStep(c, At(c, run, j - 1), run[j - 1]);
    if At(c, run, j - 1).stage.AwaitingFocus? {
      a := RenderedBefore(c, run, j - 1);
    } else {
      WaitedBefore(c, run, j - 1);
      a := j - 1;
    }
  }

  lemma {:induction false} FocusedBefore(c: Config, run: seq<Event>, j: nat) returns (a: nat, b: nat)
    requires j <= |run| && At(c, run, j).stage.AwaitingActivation?
    ensures FocusedSince(c, run, j, a, b)
  {
    RunCounted(c, run, j - 1);
    StageStep(c, At(c, run, j - 1), run[j - 1]);
    if At(c, run, j - 1).stage.AwaitingActivation? {
      a, b := FocusedBefore(c, run, j - 1);
    } else {
      a := RenderedBefore(c, run, j - 1);
      b := j - 1;
    }
  }

  lemma {:induction false} ActivatedBefore(c: Config, run: seq<Event>, j: nat) returns (a: nat, b: nat, k: nat)
    requires j <= |run| && At(c, run, j).stage.AwaitingTraceRender?
    ensures ActivatedSince(c, run, j, a, b, k)
  {
    RunCounted(c, run, j - 1);
    StageStep(c, At(c, run, j - 1), run[j - 1]);
    if At(c, run, j - 1).stage.AwaitingTraceRender? {
      a, b, k := ActivatedBefore(c, run, j - 1);
    } else {
      a, b := FocusedBefore(c, run, j - 1);
      k := j - 1;
    }
  }

  lemma {:induction false} DarkBefore(c: Config, run: seq<Event>, j: nat) returns (d: nat)
    requires j <= |run| && At(c, run, j).stage.AwaitingTraceRender?
    requires At(c, run, j).notReadySeen && At(c, run, j).settled == 0
    ensures d < j && Dark(c, run[d]) && SkippedBetween(c, run, d, j)
    ensures At(c, run, d).stage.AwaitingTraceRender?
  {
    var p := At(c, run, j - 1);
    RunCounted(c, run, j - 1);
    StageStep(c, p, run[j - 1]);
    EnteringUncounted(c, p, run[j - 1]);
    SettleStep(c, p, run[j - 1]);
    if Dark(c, run[j - 1]) {
      d := j - 1;
    } else {
      d := DarkBefore(c, run, j - 1);
    }
  }

  /** The trace stage is entered with its counters untouched, so a counted probe was already in it. */
  lemma EnteringUncounted(c: Config, p: Probe, e: Event)
    requires Counted(p) && Apply(c, p, e).probe.stage.AwaitingTraceRender?
    requires Apply(c, p, e).probe.notReadySeen
    ensures p.stage.AwaitingTraceRender?
  {
    StageStep(c, p, e);
  }

  lemma {:induction false} LitBefore(c: Config, run: seq<Event>, j: nat) returns (d: nat, l: nat)
    requires j <= |run| && At(c, run, j).stage.AwaitingTraceRender? && At(c, run, j).settled == 1
    ensures d < l < j && Dark(c, run[d]) && Lit(c, run[l])
    ensures SkippedBetween(c, run, d, l) && SkippedBetween(c, run, l, j)
    ensures At(c, run, d).stage.AwaitingTraceRender?
  {
    var p := At(c, run, j - 1);
    RunCounted(c, run, j);
    RunCounted(c, run, j - 1);
    EnteringUncounted(c, p, run[j - 1]);
    SettleStep(c, p, run[j - 1]);
    if p.settled == 1 {
      d, l := LitBefore(c, run, j - 1);
    } else {
      d := DarkBefore(c, run, j - 1);
      l := j - 1;
    }
  }

  lemma {:induction false} SettledBefore(c: Config, run: seq<Event>, j: nat)
      returns (a: nat, b: nat, k: nat, d: nat, l: nat, m: nat)
    requires j <= |run| && At(c, run, j).stage.AwaitingCapture?
    ensures Script(c, run, j, a, b, k, d, l, m)
  {
    RunCounted(c, run, j - 1);
    StageStep(c, At(c, run, j - 1), run[j - 1]);
    if At(c, run, j - 1).stage.AwaitingCapture? {
      a, b, k, d, l, m := SettledBefore(c, run, j - 1);
    } else {
      d, l := LitBefore(c, run, j - 1);
      m := j - 1;
      a, b, k := ActivatedBefore(c, run, d);
    }
  }

  /**
   * A probe that awaits its capture has seen, in this order: a ready frame, the expected focus,
   * exactly one InspectTrace command, a frame that was not ready, and then two ready frames with
   * nothing but skipped frames around them. No other live frame carried any command, and the stamps
   * it holds are those of the ready frame, of the focus and of the command.
   */
  lemma CaptureHistory(c: Config, run: seq<Event>, j: nat)
      returns (rendered: nat, focused: nat, activated: nat, dark: nat, first: nat, second: nat)
    requires j <= |run| && At(c, run, j).stage.AwaitingCapture?
    ensures rendered < focused < activated < dark < first < second < j
    ensures Lit(c, run[rendered]) && Focused(c, run[focused]) && Activated(c, run[activated])
    ensures Dark(c, run[dark]) && Lit(c, run[first]) && Lit(c, run[second])
    ensures SkippedBetween(c, run, dark, first) && SkippedBetween(c, run, first, second)
    ensures forall m :: 0 <= m < j && m != activated && Live(c, run[m]) ==> Silent(c, run[m])
    ensures Tracing(c, At(c, run, j), run[rendered], run[focused], run[activated])
  {
    rendered, focused, activated, dark, first, second := SettledBefore(c, run, j);
    ScriptHolds(c, run, j, rendered, focused, activated, dark, first, second);
  }

  /** The capture is awaited after exactly the runs that follow the script. */
  lemma CaptureAwaitedExactly(c: Config, run: seq<Event>, j: nat)
    requires j <= |run|
    ensures At(c, run, j).stage.AwaitingCapture? <==>
              exists a, b, k, d, l, m :: Script(c, run, j, a, b, k, d, l, m)
  {
    if At(c, run, j).stage.AwaitingCapture? {
      var a, b, k, d, l, m := SettledBefore(c, run, j);
    }
    forall a: nat, b: nat, k: nat, d: nat, l: nat, m: nat | Script(c, run, j, a, b, k, d, l, m)
      ensures At(c, run, j).stage.AwaitingCapture?
    {
      ScriptHolds(c, run, j, a, b, k, d, l, m);
    }
  }

  // ----- presses and failure -----

  /** Which event draws each press, release and request, at which stage. */
  lemma PressesExactly(c: Config, p: Probe, e: Event)
    requires Counted(p)
    ensures var signal := Apply(c, p, e).signal;
            && (signal.PressTab? <==> p.stage.AwaitingInitialRender? && Lit(c, e))
            && (signal.ReleaseTabPressEnter? <==> p.stage.AwaitingFocus? && Focused(c, e))
            && (signal.ReleaseEnter? <==> p.stage.AwaitingActivation? && Activated(c, e))
            && (signal.RequestCapture? <==> p.stage.AwaitingTraceRender? && p.settled == 1 && Lit(c, e))
            && (signal == Exit(true) <==> Apply(c, p, e).probe.stage.Complete? && !p.stage.Complete?)
            && (signal == Exit(false) <==> Breaks(c, p, e))
  {
  }

  /** A probe under way breaks on a late frame, a command it did not ask for and a focus it did not expect. */
  predicate BreaksFrame(c: Config, p: Probe, f: Frame) {
    && p.stage != Complete && p.stage != Failed
    && (|| f.polledAt > c.modelReadyAt + c.timeout
        || (f.window && p.stage != AwaitingActivation && f.commands != [])
        || (f.window && p.stage == AwaitingActivation && f.commands != [] && f.commands != [InspectTrace])
        || (f.window && p.stage == AwaitingFocus && f.focused.Some? && f.focused.value != c.expectedFocus))
  }

  /** A capture breaks every probe it does not complete, a complete one included. */
  predicate Breaks(c: Config, p: Probe, e: Event) {
    match e
    case FrameCall(frame) => BreaksFrame(c, p, frame)
    case CaptureCall(capture) =>
      || p.stage != AwaitingCapture
      || capture.width != c.width || capture.height != c.height
      || !capture.published
      || !SoundReport(c, p, capture.capturedAt)
  }

  predicate BreaksAt(c: Config, run: seq<Event>, i: nat)
    requires i < |run|
  {
    Breaks(c, At(c, run, i), run[i])
  }

  lemma FailStep(c: Config, p: Probe, e: Event)
    ensures Apply(c, p, e).probe.stage.Failed? <==> p.stage.Failed? || Breaks(c, p, e)
  {
  }

  /** A probe has failed exactly when some event of the run broke it. */
  lemma {:induction false} FailedExactly(c: Config, run: seq<Event>, j: nat)
    requires j <= |run|
    ensures At(c, run, j).stage.Failed? <==> exists i :: 0 <= i < j && BreaksAt(c, run, i)
  {
    if j > 0 {
      FailedExactly(c, run, j - 1);
      FailStep(c, At(c, run, j - 1), run[j - 1]);
      assert BreaksAt(c, run, j - 1) <==> Breaks(c, At(c, run, j - 1), run[j - 1]);
    }
  }

  // ----- one capture -----

  /** The call at `i` asks for a capture. */
  predicate RequestsAt(c: Config, run: seq<Event>, i: nat)
    requires i < |run|
  {
    Apply(c, At(c, run, i), run[i]).signal.RequestCapture?
  }

  lemma RequestStep(c: Config, run: seq<Event>, i: nat)
    requires i < |run| && RequestsAt(c, run, i)
    ensures RankAt(c, run, i) == 3 && RankAt(c, run, i + 1) == 4
  {
  }

  /** No run asks for a second capture. */
  lemma OneCaptureRequest(c: Config, run: seq<Event>, i: nat, j: nat)
    requires i < j < |run| && RequestsAt(c, run, i)
    ensures !RequestsAt(c, run, j)
  {
    RequestStep(c, run, i);
    RankRises(c, run, i + 1, j);
    if RequestsAt(c, run, j) {
      RequestStep(c, run, j);
    }
  }

  /** A probe completes only by a capture that arrives while it awaits one. */
  lemma CompletionIsPublished(c: Config, p: Probe, e: Event)
    requires Apply(c, p, e).probe.stage.Complete? && !p.stage.Complete?
    ensures e.CaptureCall? && p.stage.AwaitingCapture? && SoundReport(c, p, e.capture.capturedAt) && e.capture.published
  {
  }
}
