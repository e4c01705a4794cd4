/** What each call of the route model revokes, breaks, refuses and keeps. */
module RouteAnswers {
  import opened Basics
  import opened RouteProtocol
  import opened RouteModel
  import opened RouteRuns

  // ----- revocation -----

  /** A handshake, a lost link, a transfer refresh or a retirement: what was delivered before no longer counts. */
  predicate Revokes(r: Route, e: Event) {
    || e.HelloCall?
    || e.LinkLostCall?
    || ((e.TransferCall? || e.RetireCall?) && r.featureAuthorized && !r.phase.Fatal?)
  }

  /** Nothing delivered is held, and control is gone. */
  predicate Bare(r: Route) {
    r.location.None? && r.readiness.None? && !r.phase.Controllable?
  }

  lemma ReconcileFailureIsBare(r: Route)
    requires !r.phase.Fatal?
    ensures var after := r.Reconcile().model; after.phase.Fatal? ==> Bare(after) && !after.advanceAuthorized
  {
  }

  lemma ReliableFailureIsBare(r: Route, frame: ReliableFrame)
    requires !r.phase.Fatal?
    ensures var after := r.Reliable(frame).model; after.phase.Fatal? ==> Bare(after) && !after.advanceAuthorized
  {
    if frame.event.RouteStateEvent? {
      ReconcileFailureIsBare(r);
      var accepted := r.AcceptState(frame.event.state);
      if accepted.reply.Pass? {
        ReconcileFailureIsBare(accepted.model.(lastReliableSequence := frame.sequence));
      }
    }
  }

  lemma StreamFailureIsBare(r: Route, e: Event)
    requires !r.phase.Fatal? && !Revokes(r, e)
    ensures var after := Apply(r, e).model; after.phase.Fatal? ==> Bare(after) && !after.advanceAuthorized
  {
    match e {
      case TransitionCall(ready, current) => if current.Some? { ReconcileFailureIsBare(r.(location := current)); }
      case LocationCall(snapshot) => ReconcileFailureIsBare(r.(location := Some(snapshot)));
      case ReliableCall(frame) => ReliableFailureIsBare(r, frame);
      case ReadinessCall(readiness) => ReconcileFailureIsBare(r.(readiness := Some(readiness)));
      case _ =>
    }
  }

  /**
   * A revoking call, and any call that breaks the model, takes away everything delivered and the
   * control; a break or a lost link also takes the token, and a granting call leaves it up.
   */
  lemma RevocationStep(r: Route, e: Event)
    requires Authentic(r)
    ensures var after := Apply(r, e).model;
            && (Revokes(r, e) ==> Bare(after))
            && (!r.phase.Fatal? && after.phase.Fatal? ==> Bare(after) && !after.advanceAuthorized)
            && (e.LinkLostCall? ==> !after.advanceAuthorized && after.state == r.state && after.retiredFloor == r.retiredFloor)
            && (Grants(r, e) ==> after.advanceAuthorized && Apply(r, e).reply.Pass?)
  {
    if Revokes(r, e) {
      match e {
        case HelloCall(_) =>
        case LinkLostCall =>
        case TransferCall =>
        case RetireCall =>
      }
    } else if !r.phase.Fatal? {
      StreamFailureIsBare(r, e);
    }
  }

  lemma BareAt(r: Route, run: seq<Event>, i: nat)
    requires Authentic(r) && i < |run|
    requires Revokes(At(r, run, i), run[i]) || (!At(r, run, i).phase.Fatal? && At(r, run, i + 1).phase.Fatal?)
    ensures Bare(At(r, run, i + 1))
    ensures run[i].LinkLostCall? ==> !At(r, run, i + 1).advanceAuthorized
  {
    RunAuthentic(r, run[..i]);
    AtNext(r, run, i);
    RevocationStep(At(r, run, i), run[i]);
  }

  /**
   * Control after a handshake, a lost link, a transfer refresh, a retirement or a break rests on a
   * location and a readiness that calls strictly after it delivered.
   */
  lemma ControlAfterRevocationIsFresh(r: Route, run: seq<Event>, i: nat, j: nat) returns (located: nat, readied: nat)
    requires Authentic(r) && i < j <= |run|
    requires Revokes(At(r, run, i), run[i]) || (!At(r, run, i).phase.Fatal? && At(r, run, i + 1).phase.Fatal?)
    requires At(r, run, j).phase.Controllable?
    ensures i < located < j && AppliesLocation(At(r, run, located), run[located])
    ensures i < readied < j && AppliesReadiness(At(r, run, readied), run[readied])
  {
    BareAt(r, run, i);
    ControlNeedsBoth(r, run, j);
    located := LocationBetween(r, run, i + 1, j);
    readied := ReadinessBetween(r, run, i + 1, j);
  }

  /** After a lost link a newer generation takes over a held projection only by a grant given since. */
  lemma AdvanceAfterLossIsGranted(r: Route, run: seq<Event>, i: nat, j: nat) returns (k: nat)
    requires Authentic(r) && i < j < |run|
    requires run[i].LinkLostCall? && Advances(At(r, run, j), run[j])
    ensures i < k < j && Grants(At(r, run, k), run[k])
  {
    BareAt(r, run, i);
    AdvanceAt(r, run, j);
    k := GrantBetween(r, run, i + 1, j);
  }

  // ----- what the phase tells -----

  /** The place and the projection are both held, of one character version. */
  predicate Aligned(r: Route) {
    r.location.Some? && r.state.Some? && r.location.value.characterVersion == r.state.value.characterVersion
  }

  /** What each phase of a reachable model says about the three streams. */
  predicate Telling(r: Route) {
    && (r.phase.Disabled? <==> !r.featureAuthorized && !r.phase.Fatal?)
    && (!r.phase.Fatal? && Aligned(r) ==> LocationMatchesState(r.location.value, r.state.value))
    && (r.phase.AwaitingAuthority? ==> !Aligned(r))
    && (r.phase.LoadingScene? ==> r.readiness.None?)
    && (r.phase.TerminalPending? ==> Aligned(r) && r.state.value.phase.RouteTerminalPending? && r.readiness.None?)
  }

  /** After a call of a stream that passed, the phase follows exactly from the streams. */
  predicate Resolved(r: Route) {
    && r.phase.AwaitingAuthority? == !Aligned(r)
    && r.phase.TerminalPending? == (Aligned(r) && r.state.value.phase.RouteTerminalPending?)
    && r.phase.LoadingScene? == (Aligned(r) && !r.state.value.phase.RouteTerminalPending? && r.readiness.None?)
    && r.phase.Controllable? == (Aligned(r) && !r.state.value.phase.RouteTerminalPending? && r.readiness.Some?)
  }

  /** The readiness is kept unless the route turned out terminal. */
  predicate KeepsReadiness(before: Option<SceneReadiness>, after: Route) {
    after.readiness == if after.phase.TerminalPending? then None else before
  }

  lemma ReconcileTells(r: Route)
    requires Grounded(r) && r.featureAuthorized && !r.phase.Fatal?
    ensures var step := r.Reconcile();
            && Telling(step.model)
            && (step.reply.Pass? <==> !step.model.phase.Fatal?)
            && (step.reply.Fail? <==> Aligned(r) && !LocationMatchesState(r.location.value, r.state.value))
            && (step.reply.Fail? ==> step.model.failure == Some(InvalidLocationAuthority))
            && (step.reply.Pass? ==>
                  && Resolved(step.model) && KeepsReadiness(r.readiness, step.model)
                  && step.model == r.(phase := step.model.phase, readiness := step.model.readiness))
  {
  }

  lemma LocationTells(r: Route, snapshot: LocationSnapshot)
    requires Authentic(r) && Telling(r)
    ensures Telling(r.Location(snapshot).model)
  {
    if r.featureAuthorized && !r.phase.Fatal? && snapshot.Validate() && snapshot.characterId == r.characterId {
      ReconcileTells(r.(location := Some(snapshot)));
    }
  }

  lemma ReliableTells(r: Route, frame: ReliableFrame)
    requires Authentic(r) && Telling(r)
    ensures Telling(r.Reliable(frame).model)
  {
    if r.featureAuthorized && frame.Validate() && frame.event.RouteStateEvent? && frame.sequence >= r.lastReliableSequence {
      var accepted := r.AcceptState(frame.event.state);
      AcceptGrounded(r, frame.event.state);
      if frame.sequence == r.lastReliableSequence {
        if !r.phase.Fatal? { ReconcileTells(r); }
      } else if accepted.reply.Pass? && !r.phase.Fatal? {
        ReconcileTells(accepted.model.(lastReliableSequence := frame.sequence));
      }
    }
  }

  lemma ReadinessTells(r: Route, ready: SceneReadiness)
    requires Authentic(r) && Telling(r)
    ensures Telling(r.Readiness(ready).model)
  {
    if r.Readiness(ready) != r.RejectReadiness() && r.featureAuthorized && ready.worldRevision == r.worldRevision && !r.phase.Fatal? {
      ReconcileTells(r.(readiness := Some(ready)));
    }
  }

  lemma StepTells(r: Route, e: Event)
    requires Authentic(r) && Telling(r)
    ensures Telling(Apply(r, e).model)
  {
    match e {
      case TransitionCall(ready, current) => if current.Some? { LocationTells(r, current.value); }
      case LocationCall(snapshot) => LocationTells(r, snapshot);
      case ReliableCall(frame) => ReliableTells(r, frame);
      case ReadinessCall(readiness) => ReadinessTells(r, readiness);
      case _ =>
    }
  }

  /** In every run of a new model the phase tells what is held. */
  lemma {:induction false} RunTells(characterId: Id, worldRevision: Revision, routeRevision: Revision, run: seq<Event>)
    requires NewReply(characterId, routeRevision).Pass?
    ensures var r := After(Fresh(characterId, worldRevision, routeRevision), run); Authentic(r) && Telling(r)
  {
    var first := Fresh(characterId, worldRevision, routeRevision);
    RunAuthentic(first, run);
    if run != [] {
      RunTells(characterId, worldRevision, routeRevision, run[..|run| - 1]);
      StepTells(After(first, run[..|run| - 1]), run[|run| - 1]);
    }
  }

  // ----- what each stream call does -----

  /** The projection may be taken: own, compiled, not retired, and newer than what is held, with the token if its generation is. */
  predicate Takes(r: Route, next: RouteState) {
    && next.characterId == r.characterId && next.contentRevision == r.routeRevision
    && next.actorGeneration > r.retiredFloor
    && (r.state.Some? ==>
          var held := r.state.value;
          if next.actorGeneration == held.actorGeneration then next.stateVersion > held.stateVersion
          else next.actorGeneration > held.actorGeneration && r.advanceAuthorized)
  }

  /** The projection is behind what is held, or of a retired generation. */
  predicate Behind(r: Route, next: RouteState) {
    && next.characterId == r.characterId && next.contentRevision == r.routeRevision
    && (next.actorGeneration <= r.retiredFloor
        || (r.state.Some?
            && (next.actorGeneration < r.state.value.actorGeneration
                || (next.actorGeneration == r.state.value.actorGeneration && next.stateVersion < r.state.value.stateVersion))))
  }

  lemma AdmissionExactly(r: Route, next: RouteState)
    requires next.Validate() && (r.state.Some? ==> r.state.value.actorGeneration > r.retiredFloor)
    ensures r.Admit(next).Admitted? <==> Takes(r, next)
    ensures r.Admit(next).Stale? <==> Behind(r, next)
    ensures r.Admit(next).Replay? <==> r.state == Some(next) && next.characterId == r.characterId && next.contentRevision == r.routeRevision
  {
  }

  /** Why a call breaks a model that is not broken, if it does. */
  function Cause(r: Route, e: Event): Option<RouteError> {
    match e
    case HelloCall(hello) => if hello.RouteCompatible() then None else Some(InvalidServerHello)
    case TransitionCall(ready, current) => if ready && current.Some? then LocationCause(r, current.value) else None
    case LocationCall(snapshot) => LocationCause(r, snapshot)
    case ReliableCall(frame) => FrameCause(r, frame)
    case ReadinessCall(ready) =>
      if r.featureAuthorized && ready.Validate() && ready.worldRevision != r.worldRevision then Some(ContentMismatch) else None
    case _ => None
  }

  function LocationCause(r: Route, snapshot: LocationSnapshot): Option<RouteError> {
    if !r.featureAuthorized then None
    else if !snapshot.Validate() then Some(InvalidLocationAuthority)
    else if snapshot.characterId != r.characterId then Some(ForeignCharacter)
    else if Clashes(Some(snapshot), r.state) then Some(InvalidLocationAuthority)
    else None
  }

  /** Of one character version, yet not of one place. */
  predicate Clashes(location: Option<LocationSnapshot>, state: Option<RouteState>) {
    && location.Some? && state.Some?
    && location.value.characterVersion == state.value.characterVersion
    && !LocationMatchesState(location.value, state.value)
  }

  function FrameCause(r: Route, frame: ReliableFrame): Option<RouteError> {
    if !r.featureAuthorized then None
    else if !frame.Validate() then Some(InvalidProjection)
    else if frame.event.OtherEvent? || frame.sequence < r.lastReliableSequence then None
    else
      var next := frame.event.state;
      if frame.sequence == r.lastReliableSequence then
        if r.state == Some(next) then None else Some(StaleReliableSequence)
      else if next.characterId != r.characterId then Some(ForeignCharacter)
      else if next.contentRevision != r.routeRevision then Some(ContentMismatch)
      else if Takes(r, next) then
        if !r.AdvancesHeld(next) && Clashes(r.location, Some(next)) then Some(InvalidLocationAuthority) else None
      else if Behind(r, next) || r.state == Some(next) then None
      else if r.AdvancesHeld(next) then Some(GenerationAdvanceWithoutAuthority)
      else Some(ConflictingReplay)
  }

  /** The call breaks the model for this cause, exactly. */
  predicate BrokenBy(step: Step, cause: Option<RouteError>) {
    && (step.model.phase.Fatal? <==> cause.Some?)
    && (cause.Some? ==> step.reply == Fail(cause.value) && step.model.failure == cause)
  }

  lemma LocationExactly(r: Route, snapshot: LocationSnapshot)
    requires Authentic(r) && Telling(r) && !r.phase.Fatal?
    ensures var step := r.Location(snapshot);
            && BrokenBy(step, LocationCause(r, snapshot))
            && (step.reply.Pass? <==> r.featureAuthorized && LocationCause(r, snapshot).None?)
            && (step.reply.Pass? ==>
                  && Resolved(step.model) && KeepsReadiness(r.readiness, step.model)
                  && step.model == r.(location := Some(snapshot), phase := step.model.phase, readiness := step.model.readiness))
            && (!r.featureAuthorized ==> step == Step(r, Fail(FeatureNotNegotiated)))
  {
    if r.featureAuthorized && snapshot.Validate() && snapshot.characterId == r.characterId {
      ReconcileTells(r.(location := Some(snapshot)));
    }
  }

  /** What a frame that passes leaves: its projection and its sequence, and older deliveries only if still of its generation. */
  predicate FrameTaken(r: Route, frame: ReliableFrame, after: Route)
    requires frame.event.RouteStateEvent?
  {
    var next := frame.event.state;
    && after.state == Some(next) && after.lastReliableSequence == frame.sequence
    && after.retiredFloor == r.retiredFloor && after.featureAuthorized && after.failure == r.failure
    && after.location == (if r.AdvancesHeld(next) then None else r.location)
    && after.advanceAuthorized == (r.state == Some(next) && r.advanceAuthorized)
    && KeepsReadiness(if r.readiness.Some? && ReadinessMatchesState(r.readiness.value, next) then r.readiness else None, after)
    && Resolved(after)
  }

  lemma NewFrameExactly(r: Route, frame: ReliableFrame)
    requires Authentic(r) && Telling(r) && !r.phase.Fatal? && r.featureAuthorized
    requires frame.Validate() && frame.event.RouteStateEvent? && frame.sequence > r.lastReliableSequence
    ensures var step := r.Reliable(frame);
            && BrokenBy(step, FrameCause(r, frame))
            && (step.reply.Pass? <==> FrameCause(r, frame).None? && !Behind(r, frame.event.state))
            && (step.reply.Pass? ==> FrameTaken(r, frame, step.model))
            && (Behind(r, frame.event.state) ==> step == Step(r, Fail(StaleProjection)))
  {
    var next := frame.event.state;
    AdmissionExactly(r, next);
    AcceptGrounded(r, next);
    var accepted := r.AcceptState(next);
    if accepted.reply.Pass? {
      AcceptLeaves(r, next);
      ReconcileTells(accepted.model.(lastReliableSequence := frame.sequence));
    }
  }

  lemma AcceptLeaves(r: Route, next: RouteState)
    requires Authentic(r) && r.AcceptState(next).reply.Pass?
    ensures var after := r.AcceptState(next).model;
            after == r.(state := Some(next),
                        location := if r.AdvancesHeld(next) then None else r.location,
                        advanceAuthorized := r.state == Some(next) && r.advanceAuthorized,
                        readiness := if r.readiness.Some? && ReadinessMatchesState(r.readiness.value, next) then r.readiness else None)
  {
    if r.AdvancesHeld(next) && r.readiness.Some? {
      assert !ReadinessMatchesState(r.readiness.value, next);
    }
  }

  lemma FrameExactly(r: Route, frame: ReliableFrame)
    requires Authentic(r) && Telling(r) && !r.phase.Fatal?
    ensures var step := r.Reliable(frame);
            && BrokenBy(step, FrameCause(r, frame))
            && (step.reply.Pass? ==> frame.event.RouteStateEvent? && FrameTaken(r, frame, step.model))
            && (!r.featureAuthorized ==> step == Step(r, Fail(FeatureNotNegotiated)))
            && (r.featureAuthorized && frame.Validate() && frame.event.OtherEvent? ==> step == Step(r, Fail(UnexpectedReliableEvent)))
            && (r.featureAuthorized && frame.Validate() && frame.event.RouteStateEvent? ==>
                  && (frame.sequence < r.lastReliableSequence ==> step == Step(r, Fail(StaleReliableSequence)))
                  && (frame.sequence > r.lastReliableSequence && Behind(r, frame.event.state) ==> step == Step(r, Fail(StaleProjection)))
                  && (step.reply.Pass? <==> FrameCause(r, frame).None? && frame.sequence >= r.lastReliableSequence
                                            && (frame.sequence > r.lastReliableSequence ==> !Behind(r, frame.event.state))))
  {
    if r.featureAuthorized && frame.Validate() && frame.event.RouteStateEvent? {
      if frame.sequence > r.lastReliableSequence {
        NewFrameExactly(r, frame);
      } else if frame.sequence == r.lastReliableSequence {
        ReconcileTells(r);
      }
    }
  }

  lemma ReadinessExactly(r: Route, ready: SceneReadiness)
    requires Authentic(r) && Telling(r) && !r.phase.Fatal?
    ensures var step := r.Readiness(ready);
            && BrokenBy(step, Cause(r, ReadinessCall(ready)))
            && (step.reply.Pass? <==>
                  && r.featureAuthorized && ready.Validate() && ready.worldRevision == r.worldRevision
                  && (r.state.Some? ==> ReadinessMatchesState(ready, r.state.value)))
            && (step.reply.Pass? ==>
                  && Resolved(step.model) && KeepsReadiness(Some(ready), step.model)
                  && step.model == r.(phase := step.model.phase, readiness := step.model.readiness))
            && (!r.featureAuthorized ==> step == Step(r, Fail(FeatureNotNegotiated)))
            && (r.featureAuthorized && step.reply.Fail? && !step.model.phase.Fatal? ==>
                  step == Step(r.(readiness := None, phase := LoadingScene), Fail(InvalidSceneReadiness)))
  {
    if r.Readiness(ready) != r.RejectReadiness() && r.featureAuthorized && ready.worldRevision == r.worldRevision {
      ReconcileTells(r.(readiness := Some(ready)));
    }
  }

  /**
   * In every run of a new model, a call breaks a model that is not broken exactly for its cause, which
   * is also the answer and the recorded failure; a refused transition, transfer or retirement changes nothing.
   */
  lemma BreaksExactly(r: Route, e: Event)
    requires Authentic(r) && Telling(r) && !r.phase.Fatal?
    ensures BrokenBy(Apply(r, e), Cause(r, e))
    ensures e.TransitionCall? ==>
              if e.ready && e.current.Some? then Apply(r, e) == Apply(r, LocationCall(e.current.value))
              else Apply(r, e) == Step(r, Fail(InvalidLocationAuthority))
    ensures (e.TransferCall? || e.RetireCall?) && !r.featureAuthorized ==> Apply(r, e) == Step(r, Fail(FeatureNotNegotiated))
  {
    match e {
      case TransitionCall(ready, current) => if current.Some? { LocationExactly(r, current.value); }
      case LocationCall(snapshot) => LocationExactly(r, snapshot);
      case ReliableCall(frame) => FrameExactly(r, frame);
      case ReadinessCall(readiness) => ReadinessExactly(r, readiness);
      case _ =>
    }
  }

  /**
   * A broken model answers every stream, transfer and retirement with an error and, when the feature is
   * off, stays as it is; a well-formed delivery of its own content is answered as a broken model's.
   */
  lemma BrokenAnswers(r: Route, e: Event)
    requires r.phase.Fatal? && Grounded(r)
    ensures (e.LocationCall? || e.ReliableCall? || e.ReadinessCall? || e.TransferCall? || e.RetireCall?) && !r.featureAuthorized ==>
              Apply(r, e) == Step(r, Fail(FeatureNotNegotiated))
    ensures (e.TransferCall? || e.RetireCall?) && r.featureAuthorized ==> Apply(r, e) == Step(r, Fail(FatalAuthorityError))
    ensures e.LocationCall? && r.featureAuthorized && e.snapshot.Validate() && e.snapshot.characterId == r.characterId ==>
              Apply(r, e).reply == Fail(FatalAuthorityError)
    ensures e.ReadinessCall? && r.featureAuthorized && e.readiness.Validate() && e.readiness.worldRevision == r.worldRevision
            && (r.state.Some? ==> ReadinessMatchesState(e.readiness, r.state.value)) ==>
              Apply(r, e).reply == Fail(FatalAuthorityError)
  {
  }

  /**
   * A compatible handshake leaves exactly what a new model has after it, plus the retired floor and,
   * when the feature is offered, the held projection; the feature is on exactly when offered.
   */
  lemma HelloForgets(r: Route, hello: ServerHello)
    requires hello.RouteCompatible()
    ensures var offered := CORE_WORLD_FLOW_FEATURE_FLAG in hello.featureFlags;
            r.ServerHello(hello) ==
              Step(Fresh(r.characterId, r.worldRevision, r.routeRevision).(
                     retiredFloor := r.retiredFloor, state := if offered then r.state else None,
                     featureAuthorized := offered, advanceAuthorized := offered,
                     phase := if offered then AwaitingAuthority else Disabled), Pass)
  {
  }
}
