/**
 * The private-life client as a value: account, handshake, durable location and route model behind
 * one outer phase, with the transitions that transport results and player actions make.
 */
module PrivateLife {
  import opened Basics
  import opened RouteProtocol
  import R = RouteModel

  const REQUIRED_FEATURE_FLAGS: seq<string> := [
    CORE_WORLD_FLOW_FEATURE_FLAG,
    "core_consumable_use_v1",
    "core_hall_interaction_v1",
    "core_resolution_hold_v1",
    "core_safe_storage_view_v1",
    "core_combat_presentation_v1"
  ]

  datatype LifePhase =
    | Connecting | CharacterSelect | Selecting | EnteringHall | LoadingAuthority
    | Hall | PrivateRoute | TerminalPending | Disconnected | Disabled | Error

  datatype Failure = Identity | InvalidServerAuthority | Transport

  datatype LifeError =
    | FeatureNotNegotiated | ActionUnavailable | InvalidAccountAuthority | InvalidWorldAuthority
    | SequenceExhausted | MutationIdentityUnavailable | InvalidSnapshotAuthority
    | RouteFailed(cause: R.RouteError)

  /** The account snapshot: its roster's own verdict and the selection. */
  datatype Account = Account(wellFormed: bool, selected: Option<Id>) {
    predicate Validate() { wellFormed && selected != Some(0) }
  }

  datatype Portal = RealmGate | BellDungeonPortal | OtherPortal

  datatype Command = EnterHallFromCharacterSelect | UsePortal(portal: Portal) | OtherCommand

  datatype TransferCode = TransferAccepted | TransferRefused(ordinal: nat)

  datatype WorldFlowResult =
    | LocationResult(sequence: u32, snapshot: LocationSnapshot)
    | TransferResult(sequence: u32, mutationId: Id, accepted: bool, code: TransferCode,
                     arrival: Option<LocationSnapshot>, transferId: Option<Id>)
    | ErrorResult(sequence: u32, code: TransferCode, arrival: Option<LocationSnapshot>)
  {
    predicate Validate() {
      && sequence != 0
      && match this
         case LocationResult(_, snapshot) => snapshot.Validate()
         case TransferResult(_, mutationId, accepted, code, arrival, transferId) =>
           && mutationId != 0
           && (accepted <==> code.TransferAccepted?)
           && (accepted ==> arrival.Some?)
           && (arrival.Some? ==> arrival.value.Validate())
           && transferId != Some(0) && (transferId.Some? <==> accepted)
         case ErrorResult(_, code, arrival) => !code.TransferAccepted? && (arrival.Some? ==> arrival.value.Validate())
    }
  }

  datatype Request =
    | LocationRequest(sequence: u32, characterId: Id)
    | TransferRequest(sequence: u32, mutationId: Id, characterId: Id, expectedVersion: u64, command: Command)

  datatype Reply = Ok | Sent(request: Request) | Err(error: LifeError)

  datatype Step = Step(life: Life, reply: Reply)

  predicate Advertised(hello: ServerHello) {
    forall flag :: flag in REQUIRED_FEATURE_FLAGS ==> flag in hello.featureFlags
  }

  function Answer(outcome: R.Outcome): Reply {
    if outcome.Pass? then Ok else Err(RouteFailed(outcome.error))
  }

  /** The scene compiled for exactly this projection. */
  function CompiledReadiness(state: RouteState, worldRevision: Revision): SceneReadiness {
    SceneReadiness(state.scene.LocationId(), state.characterVersion, worldRevision, state.scene, state.room,
                   state.lineage, state.actorGeneration, state.stateVersion)
  }

  function PhaseOf(route: R.Route): LifePhase {
    match route.phase
    case Disabled => LifePhase.Disabled
    case AwaitingAuthority => LoadingAuthority
    case LoadingScene => LoadingAuthority
    case TerminalPending => LifePhase.TerminalPending
    case Fatal => Error
    case Controllable =>
      if route.state.None? then LoadingAuthority
      else if route.state.value.scene.LanternHalls? then LifePhase.Hall else PrivateRoute
  }

  datatype Life = Life(
    worldRevision: Revision,
    routeRevision: Revision,
    phase: LifePhase,
    account: Option<Account>,
    hello: Option<ServerHello>,
    route: Option<R.Route>,
    location: Option<LocationSnapshot>,
    pendingLocation: Option<Id>,
    pendingTransfer: Option<Id>,
    lastCode: Option<TransferCode>,
    error: Option<Failure>,
    nextSequence: u32)
  {
    function Selected(): Option<Id> {
      if account.Some? then account.value.selected else None
    }

    function FailWith(failure: Failure): Step {
      Step(this.(error := Some(failure), phase := Error), Err(InvalidAccountAuthority))
    }

    function WithRoute(step: R.Step): Step {
      Step(this.(route := Some(step.model)), Answer(step.reply))
    }

    /** One call of the held route model. */
    function CallRoute(call: R.Event): Step
      requires route.Some?
    {
      WithRoute(R.Apply(route.value, call))
    }

    // ----- handshake and account -----

    function RebindSelectedRoute(): Step {
      if hello.None? then Step(this, Ok)
      else if !Advertised(hello.value) || Selected().None? then Step(this.(route := None), Ok)
      else if route.Some? && route.value.characterId == Selected().value then WithRoute(route.value.ServerHello(hello.value))
      else if R.NewReply(Selected().value, routeRevision).Fail? then Step(this, Answer(R.NewReply(Selected().value, routeRevision)))
      else
        var step := R.Fresh(Selected().value, worldRevision, routeRevision).ServerHello(hello.value);
        if step.reply.Fail? then Step(this, Answer(step.reply)) else WithRoute(step)
    }

    function AcceptServerHello(offer: ServerHello): Step {
      if !offer.Validate() then FailWith(InvalidServerAuthority)
      else
        var heard := this.(hello := Some(offer), error := None);
        if !Advertised(offer) then Step(heard.(route := None, phase := LifePhase.Disabled), Ok)
        else heard.(phase := LoadingAuthority).RebindSelectedRoute()
    }

    function SetAccount(snapshot: Account): Step {
      if !snapshot.Validate() then FailWith(Identity)
      else if snapshot.selected == Selected() then Step(this.(account := Some(snapshot)).ShowRoster(), Ok)
      else
        var rebound := this.(account := Some(snapshot), location := None, pendingLocation := None, pendingTransfer := None)
                           .RebindSelectedRoute();
        if rebound.reply.Err? then rebound else Step(rebound.life.ShowRoster(), Ok)
    }

    function ShowRoster(): Life {
      if phase.Disabled? then this else this.(phase := LifePhase.CharacterSelect)
    }

    function ApplyBootstrap(snapshot: Option<Account>): Step {
      if snapshot.Some? then SetAccount(snapshot.value) else FailWith(Identity)
    }

    function ApplyCharacterMutation(accepted: bool, snapshot: Option<Account>): Step {
      if accepted then
        if snapshot.None? then Step(this, Err(InvalidAccountAuthority)) else SetAccount(snapshot.value)
      else if snapshot.None? then FailWith(Identity)
      else
        var updated := SetAccount(snapshot.value);
        if updated.reply.Err? then updated else updated.life.FailWith(Identity)
    }

    // ----- the three authority streams -----

    function ApplyCompiledReadiness(): Step {
      if route.None? || route.value.state.None? || location.None? then Step(this, Ok)
      else if location.value.characterVersion != route.value.state.value.characterVersion then Step(this, Ok)
      else CallRoute(R.ReadinessCall(CompiledReadiness(route.value.state.value, worldRevision)))
    }

    function SyncPhase(): Life {
      if route.None? then this else this.(phase := PhaseOf(route.value))
    }

    /** Readiness for the held projection, then the outer phase. */
    function Resolve(): Step {
      var step := ApplyCompiledReadiness();
      if step.reply.Err? then step else Step(step.life.SyncPhase(), Ok)
    }

    function AcceptLocation(snapshot: LocationSnapshot): Step {
      if !snapshot.Validate() || Some(snapshot.characterId) != Selected() then FailWith(InvalidServerAuthority)
      else
        var located := this.(location := Some(snapshot));
        if snapshot.location.CharacterSelect? then Step(located.(phase := LifePhase.CharacterSelect), Ok)
        else if route.None? then Step(located, Err(FeatureNotNegotiated))
        else
          var step := located.CallRoute(R.LocationCall(snapshot));
          if step.reply.Err? then step else step.life.Resolve()
    }

    function ApplyRoute(frame: ReliableFrame): Step {
      if route.None? then Step(this, Err(FeatureNotNegotiated))
      else
        var step := CallRoute(R.ReliableCall(frame));
        if step.reply.Err? then step else step.life.Resolve()
    }

    function ApplyWorldFlow(result: WorldFlowResult): Step {
      if !result.Validate() then Step(this, Err(InvalidWorldAuthority))
      else
        match result
        case LocationResult(_, snapshot) =>
          if pendingLocation != Some(snapshot.characterId) then FailWith(InvalidServerAuthority)
          else this.(pendingLocation := None).AcceptLocation(snapshot)
        case TransferResult(_, mutationId, accepted, code, arrival, _) =>
          if pendingTransfer != Some(mutationId) then FailWith(InvalidServerAuthority)
          else
            var settled := this.(pendingTransfer := None, lastCode := Some(code));
            if arrival.None? then
              if accepted then settled.FailWith(InvalidServerAuthority) else Step(settled.(phase := Error), Ok)
            else settled.Arrive(arrival.value, accepted)
        case ErrorResult(_, code, arrival) =>
          var settled := this.(pendingTransfer := None, lastCode := Some(code));
          if arrival.None? then Step(settled.(phase := Error), Ok) else settled.Arrive(arrival.value, false)
    }

    function Arrive(arrival: LocationSnapshot, accepted: bool): Step {
      var step := AcceptLocation(arrival);
      if step.reply.Err? || accepted then step else Step(step.life.(phase := Error), Ok)
    }

    // ----- requests -----

    function BeginLocationQuery(): Step {
      if phase.Disabled? || pendingLocation.Some? || Selected().None? then Step(this, Ok)
      else if location.Some? && location.value.characterId == Selected().value then Step(this, Ok)
      else if nextSequence == U32_MAX then Step(this, Err(SequenceExhausted))
      else Step(this.(nextSequence := nextSequence + 1, pendingLocation := Selected()),
                Sent(LocationRequest(nextSequence, Selected().value)))
    }

    predicate TransferAllowed(command: Command) {
      && location.Some?
      && match location.value.location
         case CharacterSelect(_) => command.EnterHallFromCharacterSelect?
         case Safe(locationId, _) =>
           command == UsePortal(RealmGate) && locationId == HubLanternHalls01
           && route.Some? && route.value.phase.Controllable?
         case Danger(locationId, _, _) =>
           command == UsePortal(BellDungeonPortal) && locationId == WorldCoreMicrorealm01
           && route.Some? && route.value.state.Some? && route.value.state.value.readiness.bellPortalAvailable
    }

    /** Everything a transfer needs before it is marked pending; `minted` is the fresh mutation identity, if any. */
    predicate TransferReady(command: Command, issuedAt: u64, minted: Option<Id>) {
      && !phase.Disabled? && pendingTransfer.None?
      && TransferAllowed(command) && issuedAt != 0
      && minted.Some? && nextSequence < U32_MAX
    }

    function BeginTransfer(command: Command, issuedAt: u64, minted: Option<Id>): Step {
      if phase.Disabled? || pendingTransfer.Some? then Step(this, Err(ActionUnavailable))
      else if !TransferAllowed(command) || issuedAt == 0 then Step(this, Err(ActionUnavailable))
      else if minted.None? then Step(this, Err(MutationIdentityUnavailable))
      else if nextSequence == U32_MAX then Step(this, Err(SequenceExhausted))
      else
        var marked := this.(nextSequence := nextSequence + 1, pendingTransfer := minted, lastCode := None);
        var refreshed := if route.Some? then marked.CallRoute(R.TransferCall) else Step(marked, Ok);
        if refreshed.reply.Err? then refreshed
        else Step(refreshed.life.(phase := if command.EnterHallFromCharacterSelect? then EnteringHall else LoadingAuthority),
                  Sent(TransferRequest(nextSequence, minted.value, location.value.characterId,
                                       location.value.characterVersion, command)))
    }

    // ----- terminal results and link loss -----

    /** A stored recall or extraction: the place is gone and the route must be refreshed. */
    function LeaveDanger(): Step {
      var left := this.(location := None, pendingLocation := None);
      var refreshed := if route.Some? then left.CallRoute(R.TransferCall) else Step(left, Ok);
      if refreshed.reply.Err? then refreshed else Step(refreshed.life.(phase := LoadingAuthority), Ok)
    }

    /** A recall or extraction answer: `admitted` when valid and exactly for this character and request. */
    function ApplyTerminalResult(admitted: bool, stored: bool): Step {
      if !admitted then Step(this, Err(InvalidSnapshotAuthority))
      else if stored then LeaveDanger() else Step(this, Ok)
    }

    function TransportLost(): Life {
      this.(route := if route.Some? then Some(R.Apply(route.value, R.LinkLostCall).model) else None,
            location := None, pendingLocation := None, pendingTransfer := None, phase := Disconnected)
    }

    function Retry(): Life {
      this.(location := None, pendingLocation := None, pendingTransfer := None, error := None, phase := LoadingAuthority)
    }
  }

  function New(worldRevision: Revision, routeRevision: Revision): Life {
    Life(worldRevision, routeRevision, Connecting, None, None, None, None, None, None, None, None, 1)
  }
}
