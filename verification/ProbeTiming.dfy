/** Exactly which stamp sequences the report's timing validator accepts, and when a capture completes the probe. */
module ProbeTiming {
  import opened Basics
  import opened DeathProbe
  import opened ProbeRuns

  /** Segment lengths in nanoseconds. */
  datatype Segments = Segments(a: nat, b: nat, c: nat, d: nat) {
    function Sum(): nat { a + b + c + d }

    /** How many segments are shorter than the one microsecond each is reported to last. */
    function Short(): nat {
      (if a < 1_000 then 1 else 0) + (if b < 1_000 then 1 else 0) + (if c < 1_000 then 1 else 0) + (if d < 1_000 then 1 else 0)
    }

    /** Whole microseconds made up of the parts each segment's own rounding drops. */
    function Carry(): nat {
      (a % 1_000 + b % 1_000 + c % 1_000 + d % 1_000) / 1_000
    }
  }

  /** The remainders make up for every short segment, or the total saturates. */
  predicate Accepted(s: Segments) {
    s.Sum() / 1_000 >= U64_MAX || s.Short() <= s.Carry()
  }

  /** Rounded down separately, segments lose exactly the carry of their remainders. */
  lemma FloorsLoseTheCarry(s: Segments)
    ensures s.Sum() / 1_000 == s.a / 1_000 + s.b / 1_000 + s.c / 1_000 + s.d / 1_000 + s.Carry()
  {
  }

  /** The validator's other comparisons follow from the one with the saturating sum. */
  lemma SumDecides(t: Timing)
    requires t.toRender >= 1 && t.toFocus >= 1 && t.toActivation >= 1 && t.toCapture >= 1
    ensures t.Validate() <==> t.total >= Reported(t) || t.total == U64_MAX
  {
  }

  /** A span that fits is reported as its whole microseconds, raised to one when it is short. */
  lemma ReportedSpan(start: nat, end: nat, span: nat)
    requires end == start + span
    ensures span / 1_000 < U64_MAX ==> ElapsedMicros(start, end) == span / 1_000 + if span < 1_000 then 1 else 0
    ensures span / 1_000 >= U64_MAX ==> ElapsedMicros(start, end) == U64_MAX
  {
  }

  /** `micros` reports a span: one when the span is shorter, saturated, or else its whole microseconds. */
  predicate Reports(micros: u64, start: nat, end: nat) {
    if end < start + 1_000 then micros == 1
    else if end - start >= 1_000 * U64_MAX then micros == U64_MAX
    else micros * 1_000 <= end - start < micros * 1_000 + 1_000
  }

  /** Each field of the report is the span between its own two stamps, also when a stamp runs backwards. */
  lemma TimedMeaning(t0: nat, t1: nat, t2: nat, t3: nat, t4: nat)
    ensures var t := Timed(t0, t1, t2, t3, t4);
            && Reports(t.toRender, t0, t1) && Reports(t.toFocus, t1, t2)
            && Reports(t.toActivation, t2, t3) && Reports(t.toCapture, t3, t4)
            && Reports(t.total, t0, t4)
  {
  }

  lemma CarryOfAnInstant(s: Segments)
    requires s.Sum() < 1_000
    ensures s.Short() == 4 && s.Carry() == 0
  {
    assert s.a < 1_000 && s.b < 1_000 && s.c < 1_000 && s.d < 1_000;
    assert s.a % 1_000 == s.a && s.b % 1_000 == s.b && s.c % 1_000 == s.c && s.d % 1_000 == s.d;
  }

  function Reported(t: Timing): nat { t.toRender + t.toFocus + t.toActivation + t.toCapture }

  /** Without saturation the reported segments differ from the whole by the carry and the short ones. */
  lemma ReportedSum(s: Segments, t: Timing)
    requires s.Sum() / 1_000 < U64_MAX
    requires t == Timing(ElapsedMicros(0, s.a), ElapsedMicros(0, s.b), ElapsedMicros(0, s.c), ElapsedMicros(0, s.d), t.total)
    ensures Reported(t) == s.Sum() / 1_000 - s.Carry() + s.Short()
  {
    FloorsLoseTheCarry(s);
    ReportedSpan(0, s.a, s.a);
    ReportedSpan(0, s.b, s.b);
    ReportedSpan(0, s.c, s.c);
    ReportedSpan(0, s.d, s.d);
  }

  lemma SegmentsAcceptedExactly(s: Segments, t: Timing)
    requires t == Timing(ElapsedMicros(0, s.a), ElapsedMicros(0, s.b), ElapsedMicros(0, s.c), ElapsedMicros(0, s.d),
                         ElapsedMicros(0, s.Sum()))
    ensures t.Validate() <==> Accepted(s)
  {
    SumDecides(t);
    ReportedSpan(0, s.Sum(), s.Sum());
    if s.Sum() / 1_000 < U64_MAX {
      ReportedSum(s, t);
      if s.Sum() < 1_000 {
        CarryOfAnInstant(s);
      }
    }
  }

  /**
   * Ordered stamps pass the validator exactly when the remainders carry as many microseconds as there
   * are segments shorter than one, or the total saturates.
   */
  lemma TimingAcceptedExactly(t0: nat, t1: nat, t2: nat, t3: nat, t4: nat)
    requires t0 <= t1 <= t2 <= t3 <= t4
    ensures Timed(t0, t1, t2, t3, t4).Validate() <==> Accepted(Segments(t1 - t0, t2 - t1, t3 - t2, t4 - t3))
  {
    SegmentsAcceptedExactly(Segments(t1 - t0, t2 - t1, t3 - t2, t4 - t3), Timed(t0, t1, t2, t3, t4));
  }

  /** Segments of at least one microsecond are always accepted. */
  lemma WholeMicrosecondsAreAccepted(t0: nat, t1: nat, t2: nat, t3: nat, t4: nat)
    requires t0 + 1_000 <= t1 && t1 + 1_000 <= t2 && t2 + 1_000 <= t3 && t3 + 1_000 <= t4
    ensures Timed(t0, t1, t2, t3, t4).Validate()
  {
    TimingAcceptedExactly(t0, t1, t2, t3, t4);
  }

  /** The bound matters: one instantaneous segment among whole microseconds is rejected. */
  lemma InstantSegmentIsRejected(t: nat)
    ensures !Timed(t, t, t + 1_000, t + 2_000, t + 3_000).Validate()
  {
    TimingAcceptedExactly(t, t, t + 1_000, t + 2_000, t + 3_000);
  }

  // ----- on the probe's own run -----

  function TimeOf(e: Event): nat {
    match e
    case FrameCall(frame) => frame.stampedAt
    case CaptureCall(capture) => capture.capturedAt
  }

  /** The clock never runs backwards. */
  predicate Monotone(c: Config, run: seq<Event>) {
    && (forall i :: 0 <= i < |run| ==> c.modelReadyAt <= TimeOf(run[i]))
    && (forall i, j :: 0 <= i < j < |run| ==> TimeOf(run[i]) <= TimeOf(run[j]))
  }

  /** The stamps a stage owes are there, in order, and no later than `now`. */
  predicate Stamped(c: Config, p: Probe, now: nat) {
    var rank := Rank(p.stage);
    && (1 <= rank <= 4 ==> p.renderReadyAt.Some? && c.modelReadyAt <= p.renderReadyAt.value <= now)
    && (2 <= rank <= 4 ==>
          p.focusAt.Some? && p.renderReadyAt.value <= p.focusAt.value <= now && p.observedFocus == Some(c.expectedFocus))
    && (3 <= rank <= 4 ==> p.activationAt.Some? && p.focusAt.value <= p.activationAt.value <= now)
  }

  lemma StepStamped(c: Config, p: Probe, e: Event, now: nat)
    requires Stamped(c, p, now) && now <= TimeOf(e) && c.modelReadyAt <= TimeOf(e)
    ensures Stamped(c, Apply(c, p, e).probe, TimeOf(e))
  {
  }

  lemma {:induction false} RunStamped(c: Config, run: seq<Event>, j: nat)
    requires Monotone(c, run) && j <= |run|
    ensures Stamped(c, At(c, run, j), if j == 0 then 0 else TimeOf(run[j - 1]))
  {
    if j > 0 {
      RunStamped(c, run, j - 1);
      StepStamped(c, At(c, run, j - 1), run[j - 1], if j == 1 then 0 else TimeOf(run[j - 2]));
    }
  }

  function SegmentsOf(c: Config, p: Probe, capturedAt: nat): Segments
    requires p.stage.AwaitingCapture? && Stamped(c, p, capturedAt)
  {
    Segments(p.renderReadyAt.value - c.modelReadyAt, p.focusAt.value - p.renderReadyAt.value,
             p.activationAt.value - p.focusAt.value, capturedAt - p.activationAt.value)
  }

  lemma StampsAreTimed(c: Config, p: Probe, capturedAt: nat)
    requires p.stage.AwaitingCapture? && Stamped(c, p, capturedAt)
    ensures Timed(c.modelReadyAt, p.renderReadyAt.value, p.focusAt.value, p.activationAt.value, capturedAt).Validate()
            <==> Accepted(SegmentsOf(c, p, capturedAt))
  {
    TimingAcceptedExactly(c.modelReadyAt, p.renderReadyAt.value, p.focusAt.value, p.activationAt.value, capturedAt);
  }

  lemma PublishesExactly(c: Config, p: Probe, capture: Capture)
    requires p.stage.AwaitingCapture? && Stamped(c, p, capture.capturedAt)
    ensures Publish(c, p, capture).probe.stage.Complete? <==>
              && capture.width == c.width && capture.height == c.height && capture.published
              && c.soundPayload && c.expectedFocus == 1
              && MIN_VIEWPORT_WIDTH <= c.width <= MAX_VIEWPORT_WIDTH
              && MIN_VIEWPORT_HEIGHT <= c.height <= MAX_VIEWPORT_HEIGHT
              && Accepted(SegmentsOf(c, p, capture.capturedAt))
  {
    StampsAreTimed(c, p, capture.capturedAt);
  }

  lemma StampedByThen(c: Config, run: seq<Event>, e: Event)
    requires Monotone(c, run + [e])
    ensures Stamped(c, At(c, run, |run|), TimeOf(e))
  {
    var whole := run + [e];
    assert forall i :: 0 <= i < |run| ==> run[i] == whole[i];
    assert whole[|run|] == e;
    RunStamped(c, run, |run|);
  }

  /**
   * On a clock that never runs backwards, the capture a probe awaits completes it exactly when the
   * image has the configured, permitted size, everything is written, the expected focus was the
   * first action, and the four segments pass the timing rule.
   */
  lemma CaptureCompletes(c: Config, run: seq<Event>, capture: Capture)
    requires Monotone(c, run + [CaptureCall(capture)]) && At(c, run, |run|).stage.AwaitingCapture?
    ensures var p := At(c, run, |run|);
            && Stamped(c, p, capture.capturedAt)
            && (Publish(c, p, capture).probe.stage.Complete? <==>
                  && capture.width == c.width && capture.height == c.height && capture.published
                  && c.soundPayload && c.expectedFocus == 1
                  && MIN_VIEWPORT_WIDTH <= c.width <= MAX_VIEWPORT_WIDTH
                  && MIN_VIEWPORT_HEIGHT <= c.height <= MAX_VIEWPORT_HEIGHT
                  && Accepted(SegmentsOf(c, p, capture.capturedAt)))
  {
    StampedByThen(c, run, CaptureCall(capture));
    PublishesExactly(c, At(c, run, |run|), capture);
  }

  /** The lengths between the frames the script names, up to the capture. */
  function ScriptSegments(c: Config, rendered: Event, focused: Event, activated: Event, capture: Capture): Segments
    requires rendered.FrameCall? && focused.FrameCall? && activated.FrameCall?
    requires c.modelReadyAt <= TimeOf(rendered) <= TimeOf(focused) <= TimeOf(activated) <= capture.capturedAt
  {
    Segments(rendered.frame.stampedAt - c.modelReadyAt, focused.frame.stampedAt - rendered.frame.stampedAt,
             activated.frame.stampedAt - focused.frame.stampedAt, capture.capturedAt - activated.frame.stampedAt)
  }

  lemma InOrder(c: Config, run: seq<Event>, e: Event, i: nat, j: nat)
    requires Monotone(c, run + [e]) && i < j < |run|
    ensures c.modelReadyAt <= TimeOf(run[i]) <= TimeOf(run[j]) <= TimeOf(e)
  {
    var whole := run + [e];
    assert whole[i] == run[i] && whole[j] == run[j] && whole[|run|] == e;
  }

  /**
   * From the run alone: after a run that follows the script, a capture completes the probe exactly when
   * the image is right and written and the times between the script's frames pass the rule.
   */
  lemma ScriptedCaptureCompletes(c: Config, run: seq<Event>, a: nat, b: nat, k: nat, d: nat, l: nat, m: nat, capture: Capture)
    requires Monotone(c, run + [CaptureCall(capture)]) && Script(c, run, |run|, a, b, k, d, l, m)
    ensures c.modelReadyAt <= TimeOf(run[a]) <= TimeOf(run[b]) <= TimeOf(run[k]) <= capture.capturedAt
    ensures Apply(c, At(c, run, |run|), CaptureCall(capture)).probe.stage.Complete? <==>
              && capture.width == c.width && capture.height == c.height && capture.published
              && c.soundPayload && c.expectedFocus == 1
              && MIN_VIEWPORT_WIDTH <= c.width <= MAX_VIEWPORT_WIDTH
              && MIN_VIEWPORT_HEIGHT <= c.height <= MAX_VIEWPORT_HEIGHT
              && Accepted(ScriptSegments(c, run[a], run[b], run[k], capture))
  {
    InOrder(c, run, CaptureCall(capture), a, b);
    InOrder(c, run, CaptureCall(capture), b, k);
    ScriptHolds(c, run, |run|, a, b, k, d, l, m);
    StampedByThen(c, run, CaptureCall(capture));
    TracedCaptureCompletes(c, At(c, run, |run|), run[a], run[b], run[k], capture);
  }

  lemma TracedCaptureCompletes(c: Config, p: Probe, rendered: Event, focused: Event, activated: Event, capture: Capture)
    requires p.stage.AwaitingCapture? && Stamped(c, p, capture.capturedAt) && Tracing(c, p, rendered, focused, activated)
    ensures Publish(c, p, capture).probe.stage.Complete? <==>
              && capture.width == c.width && capture.height == c.height && capture.published
              && c.soundPayload && c.expectedFocus == 1
              && MIN_VIEWPORT_WIDTH <= c.width <= MAX_VIEWPORT_WIDTH
              && MIN_VIEWPORT_HEIGHT <= c.height <= MAX_VIEWPORT_HEIGHT
              && Accepted(ScriptSegments(c, rendered, focused, activated, capture))
  {
    PublishesExactly(c, p, capture);
  }
}
