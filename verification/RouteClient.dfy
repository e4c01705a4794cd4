/** The mutable client model: each method updates the fields in place and is one transition of `Route`. */
module RouteClient {
  import opened Basics
  import opened RouteProtocol
  import opened RouteModel

  class CorePrivateRouteClientModel {
    const characterId: Id
    const worldRevision: Revision
    const routeRevision: Revision
    var phase: ClientPhase
    var failure: Option<RouteError>
    var featureAuthorized: bool
    var lastReliableSequence: u32
    var advanceAuthorized: bool
    var retiredFloor: u64
    var location: Option<LocationSnapshot>
    var state: Option<RouteState>
    var readiness: Option<SceneReadiness>

    function View(): Route
      reads this
    {
      Route(characterId, worldRevision, routeRevision, phase, failure, featureAuthorized,
            lastReliableSequence, advanceAuthorized, retiredFloor, location, state, readiness)
    }

    constructor (characterId: Id, worldRevision: Revision, routeRevision: Revision)
      ensures View() == Fresh(characterId, worldRevision, routeRevision)
    {
      this.characterId, this.worldRevision, this.routeRevision := characterId, worldRevision, routeRevision;
      phase, failure, featureAuthorized := Disabled, None, false;
      lastReliableSequence, advanceAuthorized, retiredFloor := 0, false, 0;
      location, state, readiness := None, None, None;
    }

    /** The checked constructor: an all-zero character or revision hash yields no model. */
    static method New(characterId: Id, worldRevision: Revision, routeRevision: Revision)
      returns (model: CorePrivateRouteClientModel?, reply: Outcome)
      ensures reply == NewReply(characterId, routeRevision)
      ensures reply.Pass? <==>
                && characterId != 0
                && routeRevision.records != 0 && routeRevision.assets != 0 && routeRevision.localization != 0
      ensures reply.Fail? ==> model == null
      ensures reply.Pass? ==> model != null && fresh(model) && model.View() == Fresh(characterId, worldRevision, routeRevision)
    {
      if characterId == 0 { return null, Fail(ForeignCharacter); }
      if !routeRevision.Validate() { return null, Fail(ContentMismatch); }
      model := new CorePrivateRouteClientModel(characterId, worldRevision, routeRevision);
      reply := Pass;
    }

    method AcceptServerHello(hello: ServerHello) returns (authorized: bool, reply: Outcome)
      modifies this
      ensures Step(View(), reply) == old(View()).ServerHello(hello)
      ensures reply.Pass? ==> authorized == featureAuthorized
    {
      if !hello.RouteCompatible() {
        reply := FailWith(InvalidServerHello);
        return false, reply;
      }
      lastReliableSequence := 0;
      location := None;
      readiness := None;
      failure := None;
      featureAuthorized := CORE_WORLD_FLOW_FEATURE_FLAG in hello.featureFlags;
      if !featureAuthorized {
        state := None;
        advanceAuthorized := false;
        phase := Disabled;
        return false, Pass;
      }
      advanceAuthorized := true;
      phase := AwaitingAuthority;
      return true, Pass;
    }

    method TransportLost()
      modifies this
      ensures View() == old(View()).TransportLost().model
      ensures location.None? && readiness.None? && !advanceAuthorized && state == old(state)
      ensures featureAuthorized ==> phase == if old(phase).Fatal? then Fatal else AwaitingAuthority
    {
      location := None;
      readiness := None;
      advanceAuthorized := false;
      if featureAuthorized && !phase.Fatal? {
        phase := AwaitingAuthority;
      }
    }

    method BeginCommittedTransferRefresh() returns (reply: Outcome)
      modifies this
      ensures Step(View(), reply) == old(View()).CommittedTransfer()
      ensures reply.Pass? <==> featureAuthorized && !old(phase).Fatal?
      ensures reply.Pass? ==> location.None? && readiness.None? && advanceAuthorized && phase.AwaitingAuthority?
    {
      if !featureAuthorized { return Fail(FeatureNotNegotiated); }
      if phase.Fatal? { return Fail(FatalAuthorityError); }
      location := None;
      readiness := None;
      advanceAuthorized := true;
      phase := AwaitingAuthority;
      return Pass;
    }

    method ApplyWorldTransition(ready: bool, current: Option<LocationSnapshot>) returns (reply: Outcome)
      modifies this
      ensures Step(View(), reply) == old(View()).WorldTransition(ready, current)
    {
      if !ready { return Fail(InvalidLocationAuthority); }
      match current {
        case None => return Fail(InvalidLocationAuthority);
        case Some(snapshot) => reply := ApplyLocation(snapshot);
      }
    }

    method ApplyLocation(snapshot: LocationSnapshot) returns (reply: Outcome)
      modifies this
      ensures Step(View(), reply) == old(View()).Location(snapshot)
    {
      if !featureAuthorized { return Fail(FeatureNotNegotiated); }
      if !snapshot.Validate() {
        reply := FailWith(InvalidLocationAuthority);
        return;
      }
      if snapshot.characterId != characterId {
        reply := FailWith(ForeignCharacter);
        return;
      }
      location := Some(snapshot);
      reply := ReconcileAuthority();
    }

    method ApplyReliable(frame: ReliableFrame) returns (reply: Outcome)
      modifies this
      ensures Step(View(), reply) == old(View()).Reliable(frame)
    {
      if !featureAuthorized { return Fail(FeatureNotNegotiated); }
      if !frame.Validate() {
        reply := FailWith(InvalidProjection);
        return;
      }
      match frame.event {
        case OtherEvent(_) => return Fail(UnexpectedReliableEvent);
        case RouteStateEvent(next) =>
          if frame.sequence < lastReliableSequence { return Fail(StaleReliableSequence); }
          if frame.sequence == lastReliableSequence {
            if state == Some(next) {
              reply := ReconcileAuthority();
            } else {
              reply := FailWith(StaleReliableSequence);
            }
            return;
          }
          reply := AcceptRouteState(next);
          if reply.Fail? { return; }
          lastReliableSequence := frame.sequence;
          reply := ReconcileAuthority();
      }
    }

    method ApplySceneReadiness(ready: SceneReadiness) returns (reply: Outcome)
      modifies this
      ensures Step(View(), reply) == old(View()).Readiness(ready)
    {
      if !featureAuthorized { return Fail(FeatureNotNegotiated); }
      if !ready.Validate() {
        reply := RejectSceneReadiness();
        return;
      }
      if ready.worldRevision != worldRevision {
        reply := FailWith(ContentMismatch);
        return;
      }
      if state.Some? && !ReadinessMatchesState(ready, state.value) {
        reply := RejectSceneReadiness();
        return;
      }
      readiness := Some(ready);
      reply := ReconcileAuthority();
    }

    method RetireDangerGeneration() returns (reply: Outcome)
      modifies this
      ensures Step(View(), reply) == old(View()).Retire()
    {
      if !featureAuthorized { return Fail(FeatureNotNegotiated); }
      if phase.Fatal? { return Fail(FatalAuthorityError); }
      if state.Some? {
        retiredFloor := Max(retiredFloor, state.value.actorGeneration);
        state := None;
      }
      location := None;
      readiness := None;
      advanceAuthorized := true;
      phase := AwaitingAuthority;
      return Pass;
    }

    method AcceptRouteState(next: RouteState) returns (reply: Outcome)
      modifies this
      ensures Step(View(), reply) == old(View()).AcceptState(next)
    {
      if !next.Validate() {
        reply := FailWith(InvalidProjection);
        return;
      }
      if next.characterId != characterId {
        reply := FailWith(ForeignCharacter);
        return;
      }
      if next.contentRevision != routeRevision {
        reply := FailWith(ContentMismatch);
        return;
      }
      if next.actorGeneration <= retiredFloor { return Fail(StaleProjection); }
      if state.Some? {
        var previous := state.value;
        if next.actorGeneration < previous.actorGeneration
           || (next.actorGeneration == previous.actorGeneration && next.stateVersion < previous.stateVersion)
        {
          return Fail(StaleProjection);
        }
        if next.actorGeneration == previous.actorGeneration && next.stateVersion == previous.stateVersion {
          if next == previous { return Pass; }
          reply := FailWith(ConflictingReplay);
          return;
        }
        if next.actorGeneration > previous.actorGeneration {
          if !advanceAuthorized {
            reply := FailWith(GenerationAdvanceWithoutAuthority);
            return;
          }
          location := None;
          readiness := None;
        }
      }
      advanceAuthorized := false;
      if readiness.Some? && !ReadinessMatchesState(readiness.value, next) {
        readiness := None;
      }
      state := Some(next);
      return Pass;
    }

    method ReconcileAuthority() returns (reply: Outcome)
      modifies this
      ensures Step(View(), reply) == old(View()).Reconcile()
    {
      if phase.Fatal? { return Fail(FatalAuthorityError); }
      if location.None? || state.None? {
        phase := AwaitingAuthority;
        return Pass;
      }
      if location.value.characterVersion != state.value.characterVersion {
        phase := AwaitingAuthority;
        return Pass;
      }
      if !LocationMatchesState(location.value, state.value) {
        reply := FailWith(InvalidLocationAuthority);
        return;
      }
      if state.value.phase.RouteTerminalPending? {
        readiness := None;
        phase := TerminalPending;
        return Pass;
      }
      if readiness.None? {
        phase := LoadingScene;
        return Pass;
      }
      if !ReadinessMatchesState(readiness.value, state.value)
         || readiness.value.characterVersion != location.value.characterVersion
      {
        readiness := None;
        phase := LoadingScene;
        return Pass;
      }
      phase := if state.value.readiness.acceptsGameplayInput then Controllable else TerminalPending;
      return Pass;
    }

    method RejectSceneReadiness() returns (reply: Outcome)
      modifies this
      ensures Step(View(), reply) == old(View()).RejectReadiness()
    {
      readiness := None;
      if !phase.Fatal? {
        phase := LoadingScene;
      }
      return Fail(InvalidSceneReadiness);
    }

    method FailWith(error: RouteError) returns (reply: Outcome)
      modifies this
      ensures Step(View(), reply) == old(View()).FailWith(error)
    {
      location := None;
      readiness := None;
      advanceAuthorized := false;
      failure := Some(error);
      phase := Fatal;
      return Fail(error);
    }
  }
}
