/** The three authority streams may arrive in any order, any number of times. */
module RouteConfluence {
  import opened Basics
  import opened RouteProtocol
  import opened RouteModel
  import RR = RouteRuns

  /**
   * One frame, one location and one readiness that describe the same authority. Nothing is held but,
   * after a link loss and a new handshake, perhaps the frame's own projection.
   */
  predicate Consistent(r: Route, frame: ReliableFrame, location: LocationSnapshot, readiness: SceneReadiness) {
    && r.featureAuthorized && !r.phase.Fatal?
    && r.location.None? && r.readiness.None?
    && frame.Validate() && frame.event.RouteStateEvent?
    && var state := frame.event.state;
    && frame.sequence > r.lastReliableSequence
    && state.characterId == r.characterId && state.contentRevision == r.routeRevision
    && state.actorGeneration > r.retiredFloor
    && (r.state.None? || r.state == Some(state))
    && location.Validate() && LocationMatchesState(location, state)
    && location.characterVersion == state.characterVersion
    && readiness.Validate() && ReadinessMatchesState(readiness, state) && readiness.worldRevision == r.worldRevision
  }

  /** What has been delivered decides the model; the order and the repeats do not appear in it. */
  function Merged(r: Route, frame: ReliableFrame, location: LocationSnapshot, readiness: SceneReadiness,
                  framed: bool, located: bool, readied: bool): Route
    requires Consistent(r, frame, location, readiness)
  {
    if !framed && !located && !readied then r
    else
      var terminal := frame.event.state.phase.RouteTerminalPending?;
      var placed := framed || r.state.Some?;
      r.(location := if located then Some(location) else None,
         state := if placed then Some(frame.event.state) else None,
         readiness := if readied && !(placed && located && terminal) then Some(readiness) else None,
         lastReliableSequence := if framed then frame.sequence else r.lastReliableSequence,
         advanceAuthorized := (!framed || r.state.Some?) && r.advanceAuthorized,
         phase := if !placed || !located then AwaitingAuthority
                  else if terminal then TerminalPending
                  else if readied then Controllable
                  else LoadingScene)
  }

  lemma MergeFrame(r: Route, frame: ReliableFrame, location: LocationSnapshot, readiness: SceneReadiness,
                   framed: bool, located: bool, readied: bool)
    requires Consistent(r, frame, location, readiness)
    ensures Merged(r, frame, location, readiness, framed, located, readied).Reliable(frame)
            == Step(Merged(r, frame, location, readiness, true, located, readied), Pass)
  {
    var m := Merged(r, frame, location, readiness, framed, located, readied);
    if !framed {
      if r.state.None? {
        assert m.Admit(frame.event.state) == Admitted;
        assert m.Replace(frame.event.state) == m.(advanceAuthorized := false, state := Some(frame.event.state));
      } else {
        assert m.AcceptState(frame.event.state) == Step(m, Pass);
      }
    }
  }

  lemma MergeLocation(r: Route, frame: ReliableFrame, location: LocationSnapshot, readiness: SceneReadiness,
                      framed: bool, located: bool, readied: bool)
    requires Consistent(r, frame, location, readiness)
    ensures Merged(r, frame, location, readiness, framed, located, readied).Location(location)
            == Step(Merged(r, frame, location, readiness, framed, true, readied), Pass)
  {
  }

  lemma MergeReadiness(r: Route, frame: ReliableFrame, location: LocationSnapshot, readiness: SceneReadiness,
                       framed: bool, located: bool, readied: bool)
    requires Consistent(r, frame, location, readiness)
    ensures Merged(r, frame, location, readiness, framed, located, readied).Readiness(readiness)
            == Step(Merged(r, frame, location, readiness, framed, located, true), Pass)
  {
  }

  predicate Delivery(e: Event, frame: ReliableFrame, location: LocationSnapshot, readiness: SceneReadiness) {
    e == ReliableCall(frame) || e == LocationCall(location) || e == ReadinessCall(readiness)
  }

  /** A word over the three deliveries in which each occurs at least once. */
  ghost predicate Complete(word: seq<Event>, frame: ReliableFrame, location: LocationSnapshot, readiness: SceneReadiness) {
    forall e :: e in word <==> Delivery(e, frame, location, readiness)
  }

  /** The merge of exactly the deliveries that occur in a word. */
  function Delivered(r: Route, frame: ReliableFrame, location: LocationSnapshot, readiness: SceneReadiness,
                     word: seq<Event>): Route
    requires Consistent(r, frame, location, readiness)
  {
    Merged(r, frame, location, readiness,
           ReliableCall(frame) in word, LocationCall(location) in word, ReadinessCall(readiness) in word)
  }

  lemma MergeApply(r: Route, frame: ReliableFrame, location: LocationSnapshot, readiness: SceneReadiness,
                   word: seq<Event>, e: Event)
    requires Consistent(r, frame, location, readiness) && Delivery(e, frame, location, readiness)
    ensures Apply(Delivered(r, frame, location, readiness, word), e)
            == Step(Delivered(r, frame, location, readiness, word + [e]), Pass)
  {
    var framed, located, readied := ReliableCall(frame) in word, LocationCall(location) in word, ReadinessCall(readiness) in word;
    match e {
      case ReliableCall(_) => MergeFrame(r, frame, location, readiness, framed, located, readied);
      case LocationCall(_) => MergeLocation(r, frame, location, readiness, framed, located, readied);
      case ReadinessCall(_) => MergeReadiness(r, frame, location, readiness, framed, located, readied);
    }
  }

  /**
   * For every word over the three deliveries, repeats and redeliveries included, every call is
   * accepted and the resulting model depends only on which of the three have arrived.
   */
  lemma {:induction false} DeliveryConfluence(r: Route, frame: ReliableFrame, location: LocationSnapshot,
                                              readiness: SceneReadiness, word: seq<Event>)
    requires Consistent(r, frame, location, readiness)
    requires forall e :: e in word ==> Delivery(e, frame, location, readiness)
    ensures After(r, word) == Delivered(r, frame, location, readiness, word)
    ensures forall i :: 0 <= i < |word| ==> Apply(After(r, word[..i]), word[i]).reply == Pass
  {
    if word != [] {
      var before, e := word[..|word| - 1], word[|word| - 1];
      assert word == before + [e];
      DeliveryConfluence(r, frame, location, readiness, before);
      MergeApply(r, frame, location, readiness, before, e);
      assert After(r, word) == Apply(Delivered(r, frame, location, readiness, before), e).model;
      forall i | 0 <= i < |word| ensures Apply(After(r, word[..i]), word[i]).reply == Pass {
        assert word[..i] == before[..i];
      }
    }
  }

  /** Any two complete deliveries end in one model, controllable unless the route is terminal. */
  lemma CompleteDeliveriesAgree(r: Route, frame: ReliableFrame, location: LocationSnapshot,
                                readiness: SceneReadiness, first: seq<Event>, second: seq<Event>)
    requires Consistent(r, frame, location, readiness)
    requires Complete(first, frame, location, readiness) && Complete(second, frame, location, readiness)
    ensures After(r, first) == After(r, second)
    ensures After(r, first).phase == if frame.event.state.phase.RouteTerminalPending? then TerminalPending else Controllable
    ensures After(r, first).state == Some(frame.event.state) && After(r, first).location == Some(location)
  {
    DeliveryConfluence(r, frame, location, readiness, first);
    DeliveryConfluence(r, frame, location, readiness, second);
  }

  lemma AdvanceDiscardsLocation(r: Route, frame: ReliableFrame)
    requires r.featureAuthorized && frame.Validate() && frame.sequence > r.lastReliableSequence
    requires frame.event.RouteStateEvent? && r.AdvancesHeld(frame.event.state)
    requires frame.event.state.actorGeneration > r.retiredFloor
    ensures r.Reliable(frame).model.location.None?
  {
    var accepted := r.AcceptState(frame.event.state).model;
    assert accepted.location.None?;
    assert accepted.(lastReliableSequence := frame.sequence).Reconcile().model.location.None?;
  }

  lemma LocationKeepsProjection(r: Route, location: LocationSnapshot)
    ensures var after := r.Location(location).model;
            && after.state == r.state && after.featureAuthorized == r.featureAuthorized
            && after.retiredFloor == r.retiredFloor && after.lastReliableSequence == r.lastReliableSequence
  {
  }

  /** Over a held older generation, a location delivered before the newer frame does not survive it. */
  lemma FrameDiscardsEarlierLocation(r: Route, frame: ReliableFrame, location: LocationSnapshot)
    requires r.featureAuthorized && frame.Validate() && frame.sequence > r.lastReliableSequence
    requires frame.event.RouteStateEvent? && r.AdvancesHeld(frame.event.state)
    requires frame.event.state.actorGeneration > r.retiredFloor
    ensures r.Location(location).model.Reliable(frame).model.location.None?
  {
    LocationKeepsProjection(r, location);
    AdvanceDiscardsLocation(r.Location(location).model, frame);
  }

  lemma ControlNeedsLocation(r: Route)
    requires !r.phase.Controllable?
    ensures r.Reconcile().model.phase.Controllable? ==> r.Reconcile().model.location.Some?
  {
  }

  lemma NoLocationNoControl(r: Route, readiness: SceneReadiness)
    requires r.location.None? && !r.phase.Controllable?
    ensures !r.Readiness(readiness).model.phase.Controllable?
  {
  }

  lemma ReliableWithoutLocation(r: Route, frame: ReliableFrame)
    requires r.Reliable(frame).model.location.None? && !r.phase.Controllable?
    ensures !r.Reliable(frame).model.phase.Controllable?
  {
    if frame.event.RouteStateEvent? {
      var accepted := r.AcceptState(frame.event.state).model;
      assert !accepted.phase.Controllable?;
      ControlNeedsLocation(r);
      ControlNeedsLocation(accepted.(lastReliableSequence := frame.sequence));
    }
  }

  /** The frame is admitted, or is a replay, and otherwise the three deliveries are as in `Consistent`. */
  predicate Admissible(r: Route, frame: ReliableFrame, location: LocationSnapshot, readiness: SceneReadiness) {
    && Consistent(r.(state := None), frame, location, readiness)
    && (r.Admit(frame.event.state).Admitted? || r.Admit(frame.event.state).Replay?)
  }

  /** Admitted over a held projection, the frame leaves the model it would have left over none. */
  lemma FrameOverHeld(r: Route, frame: ReliableFrame, location: LocationSnapshot, readiness: SceneReadiness)
    requires Consistent(r.(state := None), frame, location, readiness) && r.Admit(frame.event.state).Admitted?
    ensures Apply(r, ReliableCall(frame)).model == Merged(r.(state := None), frame, location, readiness, true, false, false)
  {
    var accepted := r.AcceptState(frame.event.state);
    assert accepted == Step(r.(advanceAuthorized := false, state := Some(frame.event.state)), Pass);
  }

  lemma FrameFirst(r: Route, frame: ReliableFrame, location: LocationSnapshot, readiness: SceneReadiness)
    requires Consistent(r.(state := None), frame, location, readiness) && r.Admit(frame.event.state).Admitted?
    ensures After(r, [ReliableCall(frame), LocationCall(location), ReadinessCall(readiness)])
            == Merged(r.(state := None), frame, location, readiness, true, true, true)
  {
    RR.AfterThree(r, ReliableCall(frame), LocationCall(location), ReadinessCall(readiness));
    FrameOverHeld(r, frame, location, readiness);
    RestFollows(r.(state := None), frame, location, readiness);
  }

  lemma RestFollows(r: Route, frame: ReliableFrame, location: LocationSnapshot, readiness: SceneReadiness)
    requires Consistent(r, frame, location, readiness)
    ensures Apply(Apply(Merged(r, frame, location, readiness, true, false, false), LocationCall(location)).model,
                  ReadinessCall(readiness)).model
            == Merged(r, frame, location, readiness, true, true, true)
  {
    MergeLocation(r, frame, location, readiness, true, false, false);
    MergeReadiness(r, frame, location, readiness, true, true, false);
  }

  /**
   * Over a held older generation a location that arrives before the frame is discarded, so that order
   * cannot make the route controllable, while the frame-first order does.
   */
  lemma HeldGenerationBreaksConfluence(r: Route, frame: ReliableFrame, location: LocationSnapshot,
                                       readiness: SceneReadiness)
    requires r.state.Some? && Consistent(r.(state := None), frame, location, readiness)
    requires r.AdvancesHeld(frame.event.state) && r.advanceAuthorized && !r.phase.Controllable?
    requires !frame.event.state.phase.RouteTerminalPending?
    ensures !r.Location(location).model.Reliable(frame).model.Readiness(readiness).model.phase.Controllable?
    ensures r.Reliable(frame).model.Location(location).model.Readiness(readiness).model.phase.Controllable?
  {
    FrameDiscardsEarlierLocation(r, frame, location);
    assert !r.Location(location).model.phase.Controllable?;
    ReliableWithoutLocation(r.Location(location).model, frame);
    NoLocationNoControl(r.Location(location).model.Reliable(frame).model, readiness);
    FrameOverHeld(r, frame, location, readiness);
    MergeLocation(r.(state := None), frame, location, readiness, true, false, false);
    MergeReadiness(r.(state := None), frame, location, readiness, true, true, false);
  }

  // ----- exactly when the order does not show -----

  /** The durable location would contradict the held projection. */
  predicate ContradictsHeld(r: Route, location: LocationSnapshot) {
    && r.state.Some?
    && location.characterVersion == r.state.value.characterVersion
    && !LocationMatchesState(location, r.state.value)
  }

  /**
   * Nothing is held, or the frame's own projection is; or the route is terminal, stays in the held
   * generation, and its location does not contradict the projection it replaces.
   */
  predicate Undisturbed(r: Route, frame: ReliableFrame, location: LocationSnapshot)
    requires frame.event.RouteStateEvent?
  {
    || r.state.None?
    || r.state == Some(frame.event.state)
    || (frame.event.state.phase.RouteTerminalPending? && !r.AdvancesHeld(frame.event.state) && !ContradictsHeld(r, location))
  }

  /** Over a held projection that is not the frame's own, an early readiness is lost and with it the control. */
  lemma EarlyReadinessIsLost(r: Route, frame: ReliableFrame, location: LocationSnapshot, readiness: SceneReadiness)
    requires r.state.Some? && Consistent(r.(state := None), frame, location, readiness)
    requires r.Admit(frame.event.state).Admitted?
    ensures r.Readiness(readiness).model == r.(readiness := None, phase := LoadingScene)
  {
    assert !ReadinessMatchesState(readiness, r.state.value);
  }

  lemma HeldProjectionBreaksConfluence(r: Route, frame: ReliableFrame, location: LocationSnapshot, readiness: SceneReadiness)
    requires r.state.Some? && Consistent(r.(state := None), frame, location, readiness)
    requires r.Admit(frame.event.state).Admitted? && !frame.event.state.phase.RouteTerminalPending?
    ensures After(r, [ReadinessCall(readiness), ReliableCall(frame), LocationCall(location)]).phase == LoadingScene
    ensures After(r, [ReliableCall(frame), LocationCall(location), ReadinessCall(readiness)]).phase == Controllable
  {
    FrameFirst(r, frame, location, readiness);
    RR.AfterThree(r, ReadinessCall(readiness), ReliableCall(frame), LocationCall(location));
    EarlyReadinessIsLost(r, frame, location, readiness);
    var waiting := r.(readiness := None, phase := LoadingScene);
    AdmitIgnoresPhase(r, waiting, frame.event.state);
    FrameOverHeld(waiting, frame, location, readiness);
    MergeLocation(waiting.(state := None), frame, location, readiness, true, false, false);
  }

  lemma AdmitIgnoresPhase(r: Route, other: Route, next: RouteState)
    requires other == r.(phase := other.phase, readiness := other.readiness, location := other.location,
                         lastReliableSequence := other.lastReliableSequence)
    ensures other.Admit(next) == r.Admit(next)
  {
  }

  lemma ReadinessBringsNoLocation(r: Route, readiness: SceneReadiness)
    ensures r.Readiness(readiness).model.location.Some? ==> r.location.Some?
  {
    RR.ReadinessToken(r, readiness);
  }

  /** Over an older generation, or against the held place, a location that comes first is lost or fatal. */
  lemma EarlyLocationIsLost(r: Route, frame: ReliableFrame, location: LocationSnapshot, readiness: SceneReadiness)
    requires r.state.Some? && Consistent(r.(state := None), frame, location, readiness)
    requires r.Admit(frame.event.state).Admitted?
    requires r.AdvancesHeld(frame.event.state) || ContradictsHeld(r, location)
    ensures var late := After(r, [LocationCall(location), ReliableCall(frame), ReadinessCall(readiness)]);
            late.location.None? || late.phase.Fatal?
  {
    var run := [LocationCall(location), ReliableCall(frame), ReadinessCall(readiness)];
    RR.AfterThree(r, LocationCall(location), ReliableCall(frame), ReadinessCall(readiness));
    if r.AdvancesHeld(frame.event.state) {
      FrameDiscardsEarlierLocation(r, frame, location);
      ReadinessBringsNoLocation(r.Location(location).model.Reliable(frame).model, readiness);
    } else {
      var broken := r.Location(location).model;
      assert broken.phase.Fatal?;
      RR.FatalLatch(broken, ReliableCall(frame));
      RR.FatalLatch(Apply(broken, ReliableCall(frame)).model, ReadinessCall(readiness));
    }
  }

  /** What the deliveries leave of a terminal route over a held projection of its generation. */
  predicate TerminalOver(r: Route, m: Route, frame: ReliableFrame, location: LocationSnapshot, readiness: SceneReadiness,
                         framed: bool, located: bool)
    requires frame.event.RouteStateEvent?
  {
    && m == r.(phase := m.phase, readiness := m.readiness,
               location := if located then Some(location) else None,
               state := if framed then Some(frame.event.state) else r.state,
               advanceAuthorized := !framed && r.advanceAuthorized,
               lastReliableSequence := if framed then frame.sequence else r.lastReliableSequence)
    && !m.phase.Fatal?
    && (m.readiness.Some? ==> framed && m.readiness == Some(readiness))
    && (framed && located ==> m.readiness.None? && m.phase.TerminalPending?)
  }

  /** A terminal frame over a held projection of its own generation, with a location that does not contradict it. */
  predicate TerminalHeld(r: Route, frame: ReliableFrame, location: LocationSnapshot, readiness: SceneReadiness) {
    && r.state.Some? && Consistent(r.(state := None), frame, location, readiness)
    && r.Admit(frame.event.state).Admitted?
    && frame.event.state.phase.RouteTerminalPending?
    && !r.AdvancesHeld(frame.event.state) && !ContradictsHeld(r, location)
  }

  lemma TerminalFrame(r: Route, m: Route, frame: ReliableFrame, location: LocationSnapshot, readiness: SceneReadiness,
                      framed: bool, located: bool)
    requires TerminalHeld(r, frame, location, readiness) && TerminalOver(r, m, frame, location, readiness, framed, located)
    ensures TerminalOver(r, m.Reliable(frame).model, frame, location, readiness, true, located)
  {
    if !framed {
      AdmitSame(r, m, frame.event.state);
      assert m.Replace(frame.event.state) == m.(advanceAuthorized := false, state := Some(frame.event.state));
    }
  }

  lemma AdmitSame(r: Route, m: Route, next: RouteState)
    requires m.characterId == r.characterId && m.routeRevision == r.routeRevision && m.retiredFloor == r.retiredFloor
    requires m.state == r.state && m.advanceAuthorized == r.advanceAuthorized
    ensures m.Admit(next) == r.Admit(next) && m.AdvancesHeld(next) == r.AdvancesHeld(next)
  {
  }

  lemma TerminalLocation(r: Route, m: Route, frame: ReliableFrame, location: LocationSnapshot, readiness: SceneReadiness,
                         framed: bool, located: bool)
    requires TerminalHeld(r, frame, location, readiness) && TerminalOver(r, m, frame, location, readiness, framed, located)
    ensures TerminalOver(r, m.Location(location).model, frame, location, readiness, framed, true)
  {
  }

  lemma TerminalReadiness(r: Route, m: Route, frame: ReliableFrame, location: LocationSnapshot, readiness: SceneReadiness,
                          framed: bool, located: bool)
    requires TerminalHeld(r, frame, location, readiness) && TerminalOver(r, m, frame, location, readiness, framed, located)
    ensures TerminalOver(r, m.Readiness(readiness).model, frame, location, readiness, framed, located)
  {
    assert !ReadinessMatchesState(readiness, r.state.value);
  }

  lemma TerminalStep(r: Route, m: Route, frame: ReliableFrame, location: LocationSnapshot, readiness: SceneReadiness,
                     framed: bool, located: bool, e: Event)
    requires TerminalHeld(r, frame, location, readiness) && TerminalOver(r, m, frame, location, readiness, framed, located)
    requires Delivery(e, frame, location, readiness)
    ensures TerminalOver(r, Apply(m, e).model, frame, location, readiness,
                         framed || e == ReliableCall(frame), located || e == LocationCall(location))
  {
    match e {
      case ReliableCall(_) => TerminalFrame(r, m, frame, location, readiness, framed, located);
      case LocationCall(_) => TerminalLocation(r, m, frame, location, readiness, framed, located);
      case ReadinessCall(_) => TerminalReadiness(r, m, frame, location, readiness, framed, located);
    }
  }

  lemma {:induction false} TerminalWord(r: Route, frame: ReliableFrame, location: LocationSnapshot,
                                        readiness: SceneReadiness, word: seq<Event>)
    requires TerminalHeld(r, frame, location, readiness)
    requires forall e :: e in word ==> Delivery(e, frame, location, readiness)
    ensures TerminalOver(r, After(r, word), frame, location, readiness,
                         ReliableCall(frame) in word, LocationCall(location) in word)
  {
    if word != [] {
      var before, e := word[..|word| - 1], word[|word| - 1];
      assert word == before + [e];
      TerminalWord(r, frame, location, readiness, before);
      TerminalStep(r, After(r, before), frame, location, readiness,
                   ReliableCall(frame) in before, LocationCall(location) in before, e);
    }
  }

  /** Every two complete deliveries agree. */
  ghost predicate OrderIsInvisible(r: Route, frame: ReliableFrame, location: LocationSnapshot, readiness: SceneReadiness) {
    forall first, second ::
      Complete(first, frame, location, readiness) && Complete(second, frame, location, readiness) ==>
        After(r, first) == After(r, second)
  }

  lemma UndisturbedAgree(r: Route, frame: ReliableFrame, location: LocationSnapshot, readiness: SceneReadiness,
                         first: seq<Event>, second: seq<Event>)
    requires Admissible(r, frame, location, readiness) && Undisturbed(r, frame, location)
    requires Complete(first, frame, location, readiness) && Complete(second, frame, location, readiness)
    ensures After(r, first) == After(r, second)
  {
    if r.state.None? || r.state == Some(frame.event.state) {
      CompleteDeliveriesAgree(r, frame, location, readiness, first, second);
    } else {
      TerminalWord(r, frame, location, readiness, first);
      TerminalWord(r, frame, location, readiness, second);
    }
  }

  lemma DisturbedDiffer(r: Route, frame: ReliableFrame, location: LocationSnapshot, readiness: SceneReadiness)
    requires Admissible(r, frame, location, readiness) && !Undisturbed(r, frame, location)
    ensures !OrderIsInvisible(r, frame, location, readiness)
  {
    var frameFirst := [ReliableCall(frame), LocationCall(location), ReadinessCall(readiness)];
    FrameFirst(r, frame, location, readiness);
    assert Complete(frameFirst, frame, location, readiness);
    if frame.event.state.phase.RouteTerminalPending? {
      var locationFirst := [LocationCall(location), ReliableCall(frame), ReadinessCall(readiness)];
      EarlyLocationIsLost(r, frame, location, readiness);
      assert Complete(locationFirst, frame, location, readiness);
    } else {
      var readinessFirst := [ReadinessCall(readiness), ReliableCall(frame), LocationCall(location)];
      HeldProjectionBreaksConfluence(r, frame, location, readiness);
      assert Complete(readinessFirst, frame, location, readiness);
    }
  }

  /**
   * For every admissible frame with its location and readiness: all complete deliveries, in any order
   * and with any repeats, end in one model if and only if nothing is held or the frame's own
   * projection is, or the route is terminal and its location fits what is held of its generation.
   */
  lemma ConfluenceExactly(r: Route, frame: ReliableFrame, location: LocationSnapshot, readiness: SceneReadiness)
    requires Admissible(r, frame, location, readiness)
    ensures OrderIsInvisible(r, frame, location, readiness) <==> Undisturbed(r, frame, location)
  {
    if Undisturbed(r, frame, location) {
      forall first, second | Complete(first, frame, location, readiness) && Complete(second, frame, location, readiness)
        ensures After(r, first) == After(r, second)
      {
        UndisturbedAgree(r, frame, location, readiness, first, second);
      }
    } else {
      DisturbedDiffer(r, frame, location, readiness);
    }
  }

  /**
   * A plain reconnect satisfies the premises: link loss and an enabling hello keep the held projection,
   * so the server's repeat of it merges in any order.
   */
  lemma ReconnectIsConsistent(r: Route, hello: ServerHello, frame: ReliableFrame, location: LocationSnapshot, readiness: SceneReadiness)
    requires RR.Authentic(r) && r.state.Some?
    requires hello.RouteCompatible() && CORE_WORLD_FLOW_FEATURE_FLAG in hello.featureFlags
    requires frame.Validate() && frame.event == RouteStateEvent(r.state.value)
    requires location.Validate() && LocationMatchesState(location, r.state.value)
    requires location.characterVersion == r.state.value.characterVersion
    requires readiness.Validate() && ReadinessMatchesState(readiness, r.state.value) && readiness.worldRevision == r.worldRevision
    ensures var greeted := After(r, [LinkLostCall, HelloCall(hello)]);
            Consistent(greeted, frame, location, readiness) && Admissible(greeted, frame, location, readiness)
  {
    var run := [LinkLostCall, HelloCall(hello)];
    AfterOne(r, run, 0);
    AfterOne(r, run, 1);
    assert run[..0] == [] && run[..2] == run;
  }
}
