/** The mutable private-life client, which owns its route model and updates both in place. */
module PrivateLifeClient {
  import opened Basics
  import opened RouteProtocol
  import opened PrivateLife
  import R = RouteModel
  import opened RouteClient

  class CorePrivateLifeClient {
    const worldRevision: Revision
    const routeRevision: Revision
    var phase: LifePhase
    var account: Option<Account>
    var hello: Option<ServerHello>
    var route: CorePrivateRouteClientModel?
    var location: Option<LocationSnapshot>
    var pendingLocation: Option<Id>
    var pendingTransfer: Option<Id>
    var lastCode: Option<TransferCode>
    var error: Option<Failure>
    var nextSequence: u32

    function View(): Life
      reads this, route
    {
      Life(worldRevision, routeRevision, phase, account, hello, if route == null then None else Some(route.View()),
           location, pendingLocation, pendingTransfer, lastCode, error, nextSequence)
    }

    constructor (worldRevision: Revision, routeRevision: Revision)
      ensures View() == New(worldRevision, routeRevision)
      ensures route == null
    {
      this.worldRevision, this.routeRevision := worldRevision, routeRevision;
      phase, account, hello, route := Connecting, None, None, null;
      location, pendingLocation, pendingTransfer := None, None, None;
      lastCode, error, nextSequence := None, None, 1;
    }

    method FailClient(failure: Failure) returns (reply: Reply)
      modifies this`error, this`phase
      ensures Step(View(), reply) == old(View()).FailWith(failure)
    {
      error := Some(failure);
      phase := Error;
      return Err(InvalidAccountAuthority);
    }

    method RebindSelectedRoute() returns (reply: Reply)
      modifies this`route, route
      ensures Step(View(), reply) == old(View()).RebindSelectedRoute()
      ensures route == null || route == old(route) || fresh(route)
    {
      if hello.None? { return Ok; }
      var selected := View().Selected();
      if !Advertised(hello.value) || selected.None? {
        route := null;
        return Ok;
      }
      if route != null && route.characterId == selected.value {
        var _, outcome := route.AcceptServerHello(hello.value);
        return Answer(outcome);
      }
      var model, created := CorePrivateRouteClientModel.New(selected.value, worldRevision, routeRevision);
      if created.Fail? { return Answer(created); }
      var _, outcome := model.AcceptServerHello(hello.value);
      if outcome.Fail? { return Answer(outcome); }
      route := model;
      return Ok;
    }

    method AcceptServerHello(offer: ServerHello) returns (reply: Reply)
      modifies this, route
      ensures Step(View(), reply) == old(View()).AcceptServerHello(offer)
      ensures route == null || route == old(route) || fresh(route)
    {
      if !offer.Validate() {
        reply := FailClient(InvalidServerAuthority);
        return;
      }
      hello := Some(offer);
      error := None;
      if !Advertised(offer) {
        route := null;
        phase := LifePhase.Disabled;
        return Ok;
      }
      phase := LoadingAuthority;
      reply := RebindSelectedRoute();
    }

    method SetAccount(snapshot: Account) returns (reply: Reply)
      modifies this, route
      ensures Step(View(), reply) == old(View()).SetAccount(snapshot)
      ensures route == null || route == old(route) || fresh(route)
    {
      if !snapshot.Validate() {
        reply := FailClient(Identity);
        return;
      }
      var previous := View().Selected();
      account := Some(snapshot);
      if previous != View().Selected() {
        location, pendingLocation, pendingTransfer := None, None, None;
        reply := RebindSelectedRoute();
        if reply.Err? { return; }
      }
      if !phase.Disabled? {
        phase := LifePhase.CharacterSelect;
      }
      return Ok;
    }

    method ApplyBootstrap(snapshot: Option<Account>) returns (reply: Reply)
      modifies this, route
      ensures Step(View(), reply) == old(View()).ApplyBootstrap(snapshot)
      ensures route == null || route == old(route) || fresh(route)
    {
      if snapshot.Some? {
        reply := SetAccount(snapshot.value);
      } else {
        reply := FailClient(Identity);
      }
    }

    method ApplyCharacterMutation(accepted: bool, snapshot: Option<Account>) returns (reply: Reply)
      modifies this, route
      ensures Step(View(), reply) == old(View()).ApplyCharacterMutation(accepted, snapshot)
      ensures route == null || route == old(route) || fresh(route)
    {
      if !accepted {
        if snapshot.Some? {
          reply := SetAccount(snapshot.value);
          if reply.Err? { return; }
        }
        reply := FailClient(Identity);
        return;
      }
      if snapshot.None? { return Err(InvalidAccountAuthority); }
      reply := SetAccount(snapshot.value);
    }

    method ApplyCompiledReadiness() returns (reply: Reply)
      modifies route
      ensures Step(View(), reply) == old(View()).ApplyCompiledReadiness()
    {
      if route == null || route.state.None? || location.None? { return Ok; }
      if location.value.characterVersion != route.state.value.characterVersion { return Ok; }
      var outcome := route.ApplySceneReadiness(CompiledReadiness(route.state.value, worldRevision));
      return Answer(outcome);
    }

    method SyncPhase()
      modifies this`phase
      ensures View() == old(View()).SyncPhase()
    {
      if route != null {
        phase := PhaseOf(route.View());
      }
    }

    method Resolve() returns (reply: Reply)
      modifies this`phase, route
      ensures Step(View(), reply) == old(View()).Resolve()
    {
      reply := ApplyCompiledReadiness();
      if reply.Err? { return; }
      SyncPhase();
      return Ok;
    }

    method AcceptLocation(snapshot: LocationSnapshot) returns (reply: Reply)
      modifies this`location, this`phase, this`error, route
      ensures Step(View(), reply) == old(View()).AcceptLocation(snapshot)
    {
      if !snapshot.Validate() || Some(snapshot.characterId) != View().Selected() {
        reply := FailClient(InvalidServerAuthority);
        return;
      }
      location := Some(snapshot);
      if snapshot.location.CharacterSelect? {
        phase := LifePhase.CharacterSelect;
        return Ok;
      }
      if route == null { return Err(FeatureNotNegotiated); }
      var outcome := route.ApplyLocation(snapshot);
      if outcome.Fail? { return Answer(outcome); }
      reply := Resolve();
    }

    method ApplyRoute(frame: ReliableFrame) returns (reply: Reply)
      modifies this`phase, route
      ensures Step(View(), reply) == old(View()).ApplyRoute(frame)
    {
      if route == null { return Err(FeatureNotNegotiated); }
      var outcome := route.ApplyReliable(frame);
      if outcome.Fail? { return Answer(outcome); }
      reply := Resolve();
    }

    method ApplyWorldFlow(result: WorldFlowResult) returns (reply: Reply)
      modifies this, route
      ensures Step(View(), reply) == old(View()).ApplyWorldFlow(result)
      ensures route == null || route == old(route) || fresh(route)
    {
      if !result.Validate() { return Err(InvalidWorldAuthority); }
      match result {
        case LocationResult(_, snapshot) =>
          if pendingLocation != Some(snapshot.characterId) {
            reply := FailClient(InvalidServerAuthority);
            return;
          }
          pendingLocation := None;
          reply := AcceptLocation(snapshot);
        case TransferResult(_, mutationId, accepted, code, arrival, _) =>
          if pendingTransfer != Some(mutationId) {
            reply := FailClient(InvalidServerAuthority);
            return;
          }
          pendingTransfer := None;
          lastCode := Some(code);
          // A valid accepted result always carries its arrival, so only a refusal can lack one.
          if arrival.None? {
            phase := Error;
            return Ok;
          }
          reply := Arrive(arrival.value, accepted);
        case ErrorResult(_, code, arrival) =>
          pendingTransfer := None;
          lastCode := Some(code);
          if arrival.None? {
            phase := Error;
            return Ok;
          }
          reply := Arrive(arrival.value, false);
      }
    }

    method Arrive(arrival: LocationSnapshot, accepted: bool) returns (reply: Reply)
      modifies this`location, this`phase, this`error, route
      ensures Step(View(), reply) == old(View()).Arrive(arrival, accepted)
    {
      reply := AcceptLocation(arrival);
      if reply.Err? || accepted { return; }
      phase := Error;
      return Ok;
    }

    method BeginLocationQuery() returns (reply: Reply)
      modifies this`nextSequence, this`pendingLocation
      ensures Step(View(), reply) == old(View()).BeginLocationQuery()
    {
      var selected := View().Selected();
      if phase.Disabled? || pendingLocation.Some? || selected.None? { return Ok; }
      if location.Some? && location.value.characterId == selected.value { return Ok; }
      if nextSequence == U32_MAX { return Err(SequenceExhausted); }
      var sequence := nextSequence;
      nextSequence := sequence + 1;
      pendingLocation := selected;
      return Sent(LocationRequest(sequence, selected.value));
    }

    method BeginTransfer(command: Command, issuedAt: u64, minted: Option<Id>) returns (reply: Reply)
      modifies this`nextSequence, this`pendingTransfer, this`lastCode, this`phase, route
      ensures Step(View(), reply) == old(View()).BeginTransfer(command, issuedAt, minted)
      ensures reply.Sent? && command == UsePortal(RealmGate) ==>
                location.Some? && location.value.location.Safe? && location.value.location.locationId == HubLanternHalls01
      ensures reply.Sent? && command == UsePortal(BellDungeonPortal) ==>
                location.Some? && location.value.location.Danger? && location.value.location.locationId == WorldCoreMicrorealm01
    {
      if phase.Disabled? || pendingTransfer.Some? { return Err(ActionUnavailable); }
      if !View().TransferAllowed(command) || issuedAt == 0 { return Err(ActionUnavailable); }
      if minted.None? { return Err(MutationIdentityUnavailable); }
      if nextSequence == U32_MAX { return Err(SequenceExhausted); }
      var sequence := nextSequence;
      nextSequence := sequence + 1;
      pendingTransfer := minted;
      lastCode := None;
      if route != null {
        var outcome := route.BeginCommittedTransferRefresh();
        if outcome.Fail? { return Answer(outcome); }
      }
      phase := if command.EnterHallFromCharacterSelect? then EnteringHall else LoadingAuthority;
      return Sent(TransferRequest(sequence, minted.value, location.value.characterId, location.value.characterVersion, command));
    }

    method ApplyTerminalResult(admitted: bool, stored: bool) returns (reply: Reply)
      modifies this`location, this`pendingLocation, this`phase, route
      ensures Step(View(), reply) == old(View()).ApplyTerminalResult(admitted, stored)
    {
      if !admitted { return Err(InvalidSnapshotAuthority); }
      if !stored { return Ok; }
      location := None;
      pendingLocation := None;
      if route != null {
        var outcome := route.BeginCommittedTransferRefresh();
        if outcome.Fail? { return Answer(outcome); }
      }
      phase := LoadingAuthority;
      return Ok;
    }

    method TransportLost()
      modifies this`location, this`pendingLocation, this`pendingTransfer, this`phase, route
      ensures View() == old(View()).TransportLost()
    {
      if route != null {
        route.TransportLost();
      }
      location, pendingLocation, pendingTransfer := None, None, None;
      phase := Disconnected;
    }
  }
}
