/**
 * The private-route authority model as a value and its transitions.
 *
 * Three independent streams feed it: the durable location, the reliable route projection and the
 * local scene readiness. Each transition yields the next model and the reply the caller sees.
 */
module RouteModel {
  import opened Basics
  import opened RouteProtocol

  datatype ClientPhase =
    | Disabled
    | AwaitingAuthority
    | LoadingScene
    | Controllable
    | TerminalPending
    | Fatal

  /** Failure reasons and call errors; the code always latches a failure under the error's own name. */
  datatype RouteError =
    | FeatureNotNegotiated
    | InvalidServerHello
    | InvalidProjection
    | ForeignCharacter
    | ContentMismatch
    | StaleReliableSequence
    | StaleProjection
    | ConflictingReplay
    | GenerationAdvanceWithoutAuthority
    | InvalidLocationAuthority
    | InvalidSceneReadiness
    | UnexpectedReliableEvent
    | FatalAuthorityError

  datatype Outcome = Pass | Fail(error: RouteError)

  datatype Step = Step(model: Route, reply: Outcome)

  datatype Route = Route(
    characterId: Id,
    worldRevision: Revision,
    routeRevision: Revision,
    phase: ClientPhase,
    failure: Option<RouteError>,
    featureAuthorized: bool,
    lastReliableSequence: u32,
    advanceAuthorized: bool,
    retiredFloor: u64,
    location: Option<LocationSnapshot>,
    state: Option<RouteState>,
    readiness: Option<SceneReadiness>)
  {
    function FailWith(error: RouteError): Step {
      Step(
        this.(location := None, readiness := None, advanceAuthorized := false,
              failure := Some(error), phase := Fatal),
        Fail(error))
    }

    function RejectReadiness(): Step {
      Step(
        this.(readiness := None, phase := if phase.Fatal? then Fatal else LoadingScene),
        Fail(InvalidSceneReadiness))
    }

    function ServerHello(hello: ServerHello): Step {
      if !hello.RouteCompatible() then
        FailWith(InvalidServerHello)
      else
        var reset := this.(lastReliableSequence := 0, location := None, readiness := None, failure := None);
        if CORE_WORLD_FLOW_FEATURE_FLAG in hello.featureFlags then
          Step(reset.(featureAuthorized := true, advanceAuthorized := true, phase := AwaitingAuthority), Pass)
        else
          Step(reset.(featureAuthorized := false, state := None, advanceAuthorized := false, phase := Disabled), Pass)
    }

    function TransportLost(): Step {
      Step(
        this.(location := None, readiness := None, advanceAuthorized := false,
              phase := if featureAuthorized && !phase.Fatal? then AwaitingAuthority else phase),
        Pass)
    }

    function CommittedTransfer(): Step {
      if !featureAuthorized then Step(this, Fail(FeatureNotNegotiated))
      else if phase.Fatal? then Step(this, Fail(FatalAuthorityError))
      else Step(this.(location := None, readiness := None, advanceAuthorized := true, phase := AwaitingAuthority), Pass)
    }

    function WorldTransition(ready: bool, current: Option<LocationSnapshot>): Step {
      if !ready || current.None? then Step(this, Fail(InvalidLocationAuthority))
      else Location(current.value)
    }

    function Location(snapshot: LocationSnapshot): Step {
      if !featureAuthorized then Step(this, Fail(FeatureNotNegotiated))
      else if !snapshot.Validate() then FailWith(InvalidLocationAuthority)
      else if snapshot.characterId != characterId then FailWith(ForeignCharacter)
      else this.(location := Some(snapshot)).Reconcile()
    }

    function Reliable(frame: ReliableFrame): Step {
      if !featureAuthorized then Step(this, Fail(FeatureNotNegotiated))
      else if !frame.Validate() then FailWith(InvalidProjection)
      else
        match frame.event
        case OtherEvent(_) => Step(this, Fail(UnexpectedReliableEvent))
        case RouteStateEvent(next) =>
          if frame.sequence < lastReliableSequence then Step(this, Fail(StaleReliableSequence))
          else if frame.sequence == lastReliableSequence then
            if state == Some(next) then Reconcile() else FailWith(StaleReliableSequence)
          else
            var accepted := AcceptState(next);
            if accepted.reply.Fail? then accepted
            else accepted.model.(lastReliableSequence := frame.sequence).Reconcile()
    }

    function Readiness(ready: SceneReadiness): Step {
      if !featureAuthorized then Step(this, Fail(FeatureNotNegotiated))
      else if !ready.Validate() then RejectReadiness()
      else if ready.worldRevision != worldRevision then FailWith(ContentMismatch)
      else if state.Some? && !ReadinessMatchesState(ready, state.value) then RejectReadiness()
      else this.(readiness := Some(ready)).Reconcile()
    }

    function Retire(): Step {
      if !featureAuthorized then Step(this, Fail(FeatureNotNegotiated))
      else if phase.Fatal? then Step(this, Fail(FatalAuthorityError))
      else
        var floor := if state.Some? then Max(retiredFloor, state.value.actorGeneration) else retiredFloor;
        Step(this.(retiredFloor := floor, state := None, location := None, readiness := None,
                   advanceAuthorized := true, phase := AwaitingAuthority), Pass)
    }

    /** The projection `next` would replace the held one under a newer actor generation. */
    predicate AdvancesHeld(next: RouteState) {
      state.Some? && next.actorGeneration > state.value.actorGeneration
    }

    /** How a projection compares with what is held, retired and authorised. */
    function Admit(next: RouteState): Admission {
      if !next.Validate() then Breach(InvalidProjection)
      else if next.characterId != characterId then Breach(ForeignCharacter)
      else if next.contentRevision != routeRevision then Breach(ContentMismatch)
      else if next.actorGeneration <= retiredFloor then Stale
      else if state.None? then Admitted
      else if PairLess(next, state.value) then Stale
      else if SamePair(next, state.value) then if next == state.value then Replay else Breach(ConflictingReplay)
      else if AdvancesHeld(next) && !advanceAuthorized then Breach(GenerationAdvanceWithoutAuthority)
      else Admitted
    }

    function AcceptState(next: RouteState): Step {
      match Admit(next)
      case Stale => Step(this, Fail(StaleProjection))
      case Replay => Step(this, Pass)
      case Breach(error) => FailWith(error)
      case Admitted => Step(Replace(next), Pass)
    }

    /** The newer projection takes over; a newer generation discards what described the older one. */
    function Replace(next: RouteState): Route {
      this.(
        location := if AdvancesHeld(next) then None else location,
        readiness := if !AdvancesHeld(next) && readiness.Some? && ReadinessMatchesState(readiness.value, next)
                     then readiness else None,
        advanceAuthorized := false,
        state := Some(next))
    }

    function Reconcile(): Step {
      if phase.Fatal? then Step(this, Fail(FatalAuthorityError))
      else
        match Judge(location, state, readiness)
        case Contradicts => FailWith(InvalidLocationAuthority)
        case Settles(next, kept) => Step(this.(phase := next, readiness := kept), Pass)
    }
  }

  datatype Admission = Stale | Replay | Breach(error: RouteError) | Admitted

  /** What the three streams say together: a contradiction, or a phase and the readiness to keep. */
  datatype Verdict = Contradicts | Settles(phase: ClientPhase, readiness: Option<SceneReadiness>)

  function Judge(location: Option<LocationSnapshot>, state: Option<RouteState>, readiness: Option<SceneReadiness>): Verdict {
    if location.None? || state.None? || location.value.characterVersion != state.value.characterVersion then
      Settles(AwaitingAuthority, readiness)
    else if !LocationMatchesState(location.value, state.value) then Contradicts
    else if state.value.phase.RouteTerminalPending? then Settles(TerminalPending, None)
    else if readiness.None? then Settles(LoadingScene, None)
    else if !ReadinessMatchesState(readiness.value, state.value)
         || readiness.value.characterVersion != location.value.characterVersion then
      Settles(LoadingScene, None)
    else
      Settles(if state.value.readiness.acceptsGameplayInput then Controllable else TerminalPending, readiness)
  }

  predicate PairLess(a: RouteState, b: RouteState) {
    a.actorGeneration < b.actorGeneration
    || (a.actorGeneration == b.actorGeneration && a.stateVersion < b.stateVersion)
  }

  predicate SamePair(a: RouteState, b: RouteState) {
    a.actorGeneration == b.actorGeneration && a.stateVersion == b.stateVersion
  }

  function Fresh(characterId: Id, worldRevision: Revision, routeRevision: Revision): Route {
    Route(characterId, worldRevision, routeRevision, Disabled, None, false, 0, false, 0, None, None, None)
  }

  function NewReply(characterId: Id, routeRevision: Revision): Outcome {
    if characterId == 0 then Fail(ForeignCharacter)
    else if !routeRevision.Validate() then Fail(ContentMismatch)
    else Pass
  }

  /** Every call a client of the model can make. */
  datatype Event =
    | HelloCall(hello: ServerHello)
    | LinkLostCall
    | TransferCall
    | TransitionCall(ready: bool, current: Option<LocationSnapshot>)
    | LocationCall(snapshot: LocationSnapshot)
    | ReliableCall(frame: ReliableFrame)
    | ReadinessCall(readiness: SceneReadiness)
    | RetireCall

  function Apply(r: Route, e: Event): Step {
    match e
    case HelloCall(hello) => r.ServerHello(hello)
    case LinkLostCall => r.TransportLost()
    case TransferCall => r.CommittedTransfer()
    case TransitionCall(ready, current) => r.WorldTransition(ready, current)
    case LocationCall(snapshot) => r.Location(snapshot)
    case ReliableCall(frame) => r.Reliable(frame)
    case ReadinessCall(readiness) => r.Readiness(readiness)
    case RetireCall => r.Retire()
  }

  /** The model after a whole run of calls. */
  function After(r: Route, run: seq<Event>): Route {
    if run == [] then r else Apply(After(r, run[..|run| - 1]), run[|run| - 1]).model
  }

  lemma AfterOne(r: Route, run: seq<Event>, i: nat)
    requires i < |run|
    ensures After(r, run[..i + 1]) == Apply(After(r, run[..i]), run[i]).model
  {
    assert run[..i + 1][..i] == run[..i];
  }
}
