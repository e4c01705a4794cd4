/** What the private-life client sends, answers and clears, and that its two streams may arrive in either order. */
module LifeMeaning {
  import opened Basics
  import opened RouteProtocol
  import opened PrivateLife
  import P = PrivateLifeRuns
  import R = RouteModel
  import RR = RouteRuns
  import RA = RouteAnswers
  import RC = RouteConfluence
  import W = LifeSnapshotRuns

  // ----- transfers -----

  /** The command is the way out of the known place, and that way is open. */
  predicate LeadsOut(l: Life, command: Command) {
    match command
    case EnterHallFromCharacterSelect => l.location.Some? && l.location.value.location.CharacterSelect?
    case UsePortal(RealmGate) =>
      && l.location.Some? && l.location.value.location.Safe? && l.location.value.location.locationId == HubLanternHalls01
      && l.route.Some? && l.route.value.phase == R.Controllable
    case UsePortal(BellDungeonPortal) =>
      && l.location.Some? && l.location.value.location.Danger? && l.location.value.location.locationId == WorldCoreMicrorealm01
      && l.route.Some? && l.route.value.state.Some? && l.route.value.state.value.readiness.bellPortalAvailable
    case _ => false
  }

  /** Why a transfer is refused, if it is. */
  function TransferRefusal(l: Life, command: Command, issuedAt: u64, minted: Option<Id>): Option<LifeError> {
    if l.phase == LifePhase.Disabled || l.pendingTransfer.Some? || !LeadsOut(l, command) || issuedAt == 0 then Some(ActionUnavailable)
    else if minted.None? then Some(MutationIdentityUnavailable)
    else if l.nextSequence == U32_MAX then Some(SequenceExhausted)
    else if l.route.Some? && !l.route.value.featureAuthorized then Some(RouteFailed(R.FeatureNotNegotiated))
    else if l.route.Some? && l.route.value.phase.Fatal? then Some(RouteFailed(R.FatalAuthorityError))
    else None
  }

  /** The route model waits for authority again: nothing delivered is held, and one advance is granted. */
  predicate Refreshed(before: R.Route, after: R.Route) {
    && after.location.None? && after.readiness.None? && after.phase == R.AwaitingAuthority && after.advanceAuthorized
    && after.state == before.state && after.characterId == before.characterId && after.retiredFloor == before.retiredFloor
    && after.lastReliableSequence == before.lastReliableSequence
  }

  /**
   * A transfer is sent exactly when it is not refused, under the next sequence and the fresh identity,
   * for the place known; the client then waits, its route model refreshed.
   */
  lemma TransferExactly(l: Life, command: Command, issuedAt: u64, minted: Option<Id>)
    ensures var (step, refusal) := (l.BeginTransfer(command, issuedAt, minted), TransferRefusal(l, command, issuedAt, minted));
            if refusal.Some? then
              && step.reply == Err(refusal.value)
              && step.life.phase == l.phase && step.life.route == l.route && step.life.location == l.location
            else
              && step.reply == Sent(TransferRequest(l.nextSequence, minted.value, l.location.value.characterId,
                                                    l.location.value.characterVersion, command))
              && step.life == l.(nextSequence := l.nextSequence + 1, pendingTransfer := minted, lastCode := None,
                                 route := step.life.route, phase := step.life.phase)
              && step.life.phase == (if command == EnterHallFromCharacterSelect then EnteringHall else LoadingAuthority)
              && (l.route.Some? <==> step.life.route.Some?)
              && (l.route.Some? ==> Refreshed(l.route.value, step.life.route.value))
  {
  }

  /** A client in the Hall, located there with nothing pending, sends the realm gate and refuses every other way. */
  lemma HallSendsTheRealmGate(l: Life, command: Command, issuedAt: u64, minted: Id)
    requires P.Held(l) && P.Refines(l) && l.phase == LifePhase.Hall
    requires l.location.Some? && l.location.value.location.Safe? && l.location.value.location.locationId == HubLanternHalls01
    requires l.pendingTransfer.None? && issuedAt != 0 && l.nextSequence < U32_MAX
    ensures var step := l.BeginTransfer(command, issuedAt, Some(minted));
            && (command == UsePortal(RealmGate) <==> step.reply.Sent?)
            && (command != UsePortal(RealmGate) ==> step == Step(l, Err(ActionUnavailable)))
            && (step.reply.Sent? ==> step.reply.request == TransferRequest(l.nextSequence, minted, l.location.value.characterId,
                                                                          l.location.value.characterVersion, command))
  {
    TransferExactly(l, command, issuedAt, Some(minted));
  }

  /** In the microrealm the way out is the Bell portal, exactly while the held projection shows it open. */
  lemma MicrorealmSendsTheBellPortal(l: Life, command: Command, issuedAt: u64, minted: Id)
    requires P.Held(l) && l.route.Some? && l.route.value.featureAuthorized && !l.route.value.phase.Fatal?
    requires l.location.Some? && l.location.value.location.Danger? && l.location.value.location.locationId == WorldCoreMicrorealm01
    requires l.phase != LifePhase.Disabled && l.pendingTransfer.None? && issuedAt != 0 && l.nextSequence < U32_MAX
    ensures l.BeginTransfer(command, issuedAt, Some(minted)).reply.Sent?
            <==> command == UsePortal(BellDungeonPortal)
                 && l.route.value.state.Some? && l.route.value.state.value.phase == MicrorealmCleared
    ensures !l.BeginTransfer(command, issuedAt, Some(minted)).reply.Sent? ==>
              l.BeginTransfer(command, issuedAt, Some(minted)) == Step(l, Err(ActionUnavailable))
  {
    TransferExactly(l, command, issuedAt, Some(minted));
  }

  // ----- requests -----

  function RequestOf(l: Life, e: P.Event): Option<Request> {
    var reply := match e
                 case LocationQueried(_) => l.BeginLocationQuery().reply
                 case TransferBegun(command, issuedAt, minted, _) => l.BeginTransfer(command, issuedAt, minted).reply
                 case _ => Ok;
    if reply.Sent? then Some(reply.request) else None
  }

  function SequenceOf(request: Request): u32 {
    match request
    case LocationRequest(sequence, _) => sequence
    case TransferRequest(sequence, _, _, _, _) => sequence
  }

  /** A location is asked for exactly once, and only for a selected character whose place is unknown. */
  lemma QueryExactly(l: Life)
    ensures var step := l.BeginLocationQuery();
            var needed := && l.phase != LifePhase.Disabled && l.pendingLocation.None? && l.Selected().Some?
                          && (l.location.None? || l.location.value.characterId != l.Selected().value);
            if !needed then step == Step(l, Ok)
            else if l.nextSequence == U32_MAX then step == Step(l, Err(SequenceExhausted))
            else step == Step(l.(nextSequence := l.nextSequence + 1, pendingLocation := l.Selected()),
                              Sent(LocationRequest(l.nextSequence, l.Selected().value)))
  {
  }

  lemma AccountKeepsSequence(l: Life, snapshot: Account)
    ensures l.SetAccount(snapshot).life.nextSequence == l.nextSequence
  {
  }

  lemma DeliveryKeepsSequence(l: Life, d: P.Delivery)
    ensures P.Deliver(l, d).life.nextSequence == l.nextSequence
  {
    match d {
      case BootstrapEvent(snapshot) => if snapshot.Some? { AccountKeepsSequence(l, snapshot.value); }
      case MutationEvent(accepted, updated) => if updated.Some? { AccountKeepsSequence(l, updated.value); }
      case _ =>
    }
  }

  lemma SequenceStep(l: Life, e: P.Event)
    ensures l.nextSequence <= P.Next(l, e).nextSequence
    ensures RequestOf(l, e).Some? ==> SequenceOf(RequestOf(l, e).value) == l.nextSequence < P.Next(l, e).nextSequence
  {
    if e.Delivered? {
      DeliveryKeepsSequence(l, e.delivery);
    }
  }

  lemma AfterOne(l: Life, run: seq<P.Event>, i: nat)
    requires i < |run|
    ensures P.After(l, run[..i + 1]) == P.Next(P.After(l, run[..i]), run[i])
  {
    assert run[..i + 1][..i] == run[..i];
  }

  lemma {:induction false} SequenceRises(l: Life, run: seq<P.Event>, i: nat, j: nat)
    requires i <= j <= |run|
    ensures P.After(l, run[..i]).nextSequence <= P.After(l, run[..j]).nextSequence
  {
    if i < j {
      SequenceRises(l, run, i, j - 1);
      AfterOne(l, run, j - 1);
      SequenceStep(P.After(l, run[..j - 1]), run[j - 1]);
    }
  }

  lemma RequestAtUses(l: Life, run: seq<P.Event>, i: nat)
    requires i < |run| && RequestOf(P.After(l, run[..i]), run[i]).Some?
    ensures SequenceOf(RequestOf(P.After(l, run[..i]), run[i]).value) == P.After(l, run[..i]).nextSequence
    ensures P.After(l, run[..i]).nextSequence < P.After(l, run[..i + 1]).nextSequence
  {
    AfterOne(l, run, i);
    SequenceStep(P.After(l, run[..i]), run[i]);
  }

  /** Over every run the requests sent, queries and transfers alike, carry strictly increasing sequences. */
  lemma RequestSequencesIncrease(l: Life, run: seq<P.Event>, i: nat, j: nat)
    requires i < j < |run|
    requires RequestOf(P.After(l, run[..i]), run[i]).Some? && RequestOf(P.After(l, run[..j]), run[j]).Some?
    ensures SequenceOf(RequestOf(P.After(l, run[..i]), run[i]).value) < SequenceOf(RequestOf(P.After(l, run[..j]), run[j]).value)
  {
    RequestAtUses(l, run, i);
    RequestAtUses(l, run, j);
    SequenceRises(l, run, i + 1, j);
  }

  // ----- the known place is the selected character's -----

  predicate OwnPlace(l: Life) {
    && (l.location.Some? ==> l.Selected() == Some(l.location.value.characterId))
    && (l.pendingLocation.Some? ==> l.Selected() == l.pendingLocation)
  }

  lemma LocationIsOwn(l: Life, snapshot: LocationSnapshot)
    requires OwnPlace(l)
    ensures OwnPlace(l.AcceptLocation(snapshot).life)
  {
  }

  lemma AccountIsOwn(l: Life, snapshot: Account)
    requires OwnPlace(l)
    ensures OwnPlace(l.SetAccount(snapshot).life)
  {
  }

  lemma WorldFlowIsOwn(l: Life, result: WorldFlowResult)
    requires OwnPlace(l)
    ensures OwnPlace(l.ApplyWorldFlow(result).life)
  {
    match result {
      case LocationResult(_, snapshot) => LocationIsOwn(l.(pendingLocation := None), snapshot);
      case TransferResult(_, mutationId, accepted, code, arrival, _) =>
        if arrival.Some? { LocationIsOwn(l.(pendingTransfer := None, lastCode := Some(code)), arrival.value); }
      case ErrorResult(_, code, arrival) =>
        if arrival.Some? { LocationIsOwn(l.(pendingTransfer := None, lastCode := Some(code)), arrival.value); }
    }
  }

  lemma DeliveryIsOwn(l: Life, d: P.Delivery)
    requires OwnPlace(l)
    ensures OwnPlace(P.Deliver(l, d).life)
  {
    match d {
      case BootstrapEvent(snapshot) => if snapshot.Some? { AccountIsOwn(l, snapshot.value); }
      case MutationEvent(accepted, updated) => if updated.Some? { AccountIsOwn(l, updated.value); }
      case WorldFlowEvent(result) => WorldFlowIsOwn(l, result);
      case _ =>
    }
  }

  lemma NextIsOwn(l: Life, e: P.Event)
    requires OwnPlace(l)
    ensures OwnPlace(P.Next(l, e))
  {
    match e {
      case Delivered(delivery) => DeliveryIsOwn(l, delivery);
      case _ =>
    }
  }

  /** In every run the known place, and the one asked for, is the selected character's. */
  lemma {:induction false} PlaceIsOwn(worldRevision: Revision, routeRevision: Revision, run: seq<P.Event>)
    ensures OwnPlace(P.After(New(worldRevision, routeRevision), run))
  {
    if run != [] {
      PlaceIsOwn(worldRevision, routeRevision, run[..|run| - 1]);
      NextIsOwn(P.After(New(worldRevision, routeRevision), run[..|run| - 1]), run[|run| - 1]);
    }
  }

  // ----- handshake and account -----

  predicate AllSixFlags(hello: ServerHello) {
    && "core_world_flow_integration" in hello.featureFlags && "core_consumable_use_v1" in hello.featureFlags
    && "core_hall_interaction_v1" in hello.featureFlags && "core_resolution_hold_v1" in hello.featureFlags
    && "core_safe_storage_view_v1" in hello.featureFlags && "core_combat_presentation_v1" in hello.featureFlags
  }

  lemma AdvertisedIsAllSix(hello: ServerHello)
    ensures Advertised(hello) <==> AllSixFlags(hello)
  {
    assert REQUIRED_FEATURE_FLAGS[0] == "core_world_flow_integration" && REQUIRED_FEATURE_FLAGS[1] == "core_consumable_use_v1"
           && REQUIRED_FEATURE_FLAGS[2] == "core_hall_interaction_v1" && REQUIRED_FEATURE_FLAGS[3] == "core_resolution_hold_v1"
           && REQUIRED_FEATURE_FLAGS[4] == "core_safe_storage_view_v1" && REQUIRED_FEATURE_FLAGS[5] == "core_combat_presentation_v1";
    forall flag | flag in REQUIRED_FEATURE_FLAGS
      ensures flag in ["core_world_flow_integration", "core_consumable_use_v1", "core_hall_interaction_v1",
                       "core_resolution_hold_v1", "core_safe_storage_view_v1", "core_combat_presentation_v1"]
    {
    }
  }

  /** A greeted route model of the character, with nothing held but what the same character's model held before. */
  predicate Greeted(l: Life, character: Id, route: R.Route) {
    && route.characterId == character && route.worldRevision == l.worldRevision && route.routeRevision == l.routeRevision
    && route.phase == R.AwaitingAuthority && route.featureAuthorized && route.advanceAuthorized
    && route.lastReliableSequence == 0 && route.location.None? && route.readiness.None?
    && (if l.route.Some? && l.route.value.characterId == character
        then route.state == l.route.value.state && route.retiredFloor == l.route.value.retiredFloor
        else route.state.None? && route.retiredFloor == 0)
  }

  /** With a compatible full handshake, the route model is exactly that of the selection. */
  lemma RebindExactly(l: Life)
    requires P.Held(l) && l.routeRevision.Validate()
    requires l.hello.Some? && l.hello.value.RouteCompatible() && AllSixFlags(l.hello.value)
    ensures var step := l.RebindSelectedRoute();
            && step.reply == Ok && step.life == l.(route := step.life.route)
            && (if l.Selected().None? then step.life.route.None?
                else step.life.route.Some? && Greeted(l, l.Selected().value, step.life.route.value))
  {
    AdvertisedIsAllSix(l.hello.value);
  }

  /** Under a full handshake of an incompatible version, the same character's model breaks, and another character's is not replaced. */
  lemma IncompatibleRebind(l: Life)
    requires P.Held(l) && l.routeRevision.Validate() && l.Selected().Some?
    requires l.hello.Some? && !l.hello.value.RouteCompatible() && AllSixFlags(l.hello.value)
    ensures var step := l.RebindSelectedRoute();
            && step.reply == Err(RouteFailed(R.InvalidServerHello))
            && step.life == l.(route := step.life.route)
            && (if l.route.Some? && l.route.value.characterId == l.Selected().value
                then step.life.route.Some? && step.life.route.value.phase == R.Fatal
                else step.life == l)
  {
    AdvertisedIsAllSix(l.hello.value);
  }

  /** A handshake is refused, or disables the client, or starts loading with the selection's route model greeted. */
  lemma HelloExactly(l: Life, offer: ServerHello)
    requires P.Held(l) && l.routeRevision.Validate()
    ensures var step := l.AcceptServerHello(offer);
            if !offer.Validate() then
              step == Step(l.(error := Some(InvalidServerAuthority), phase := Error), Err(InvalidAccountAuthority))
            else if !AllSixFlags(offer) then
              step == Step(l.(hello := Some(offer), error := None, route := None, phase := LifePhase.Disabled), Ok)
            else
              && step.life == l.(hello := Some(offer), error := None, phase := LoadingAuthority, route := step.life.route)
              && (l.Selected().None? ==> step.life.route.None? && step.reply == Ok)
              && (l.Selected().Some? && offer.RouteCompatible() ==>
                    step.reply == Ok && step.life.route.Some? && Greeted(l, l.Selected().value, step.life.route.value))
              && (l.Selected().Some? && !offer.RouteCompatible() ==>
                    step.reply == Err(RouteFailed(R.InvalidServerHello))
                    && (step.life.route.Some? && step.life.route.value.characterId == l.Selected().value ==>
                          step.life.route.value.phase.Fatal?))
  {
    AdvertisedIsAllSix(offer);
  }

  /** A valid account with the same selection only shows the roster; another selection also forgets the place and what was pending. */
  lemma AccountExactly(l: Life, snapshot: Account)
    requires P.Held(l) && l.routeRevision.Validate()
    ensures var step := l.SetAccount(snapshot);
            if !snapshot.wellFormed || snapshot.selected == Some(0) then
              step == Step(l.(error := Some(Identity), phase := Error), Err(InvalidAccountAuthority))
            else if snapshot.selected == l.Selected() then
              step == Step(l.(account := Some(snapshot), phase := if l.phase.Disabled? then l.phase else LifePhase.CharacterSelect), Ok)
            else
              && step.life == l.(account := Some(snapshot), location := None, pendingLocation := None, pendingTransfer := None,
                                 route := step.life.route, phase := step.life.phase)
              && (step.reply == Ok ==> step.life.phase == if l.phase.Disabled? then l.phase else LifePhase.CharacterSelect)
              && (l.hello.None? ==> step.reply == Ok && step.life.route == l.route)
              && (l.hello.Some? && l.hello.value.RouteCompatible() && AllSixFlags(l.hello.value) ==>
                    && step.reply == Ok
                    && (if snapshot.selected.None? then step.life.route.None?
                        else step.life.route.Some? && Greeted(l, snapshot.selected.value, step.life.route.value)))
  {
    if l.hello.Some? {
      AdvertisedIsAllSix(l.hello.value);
    }
  }

  /** A refused mutation fails the client after setting the account it carries; an accepted one must carry one; a bootstrap error fails. */
  lemma MutationExactly(l: Life, accepted: bool, snapshot: Option<Account>)
    ensures var step := l.ApplyCharacterMutation(accepted, snapshot);
            && (accepted && snapshot.None? ==> step == Step(l, Err(InvalidAccountAuthority)))
            && (accepted && snapshot.Some? ==> step == l.SetAccount(snapshot.value))
            && (!accepted ==> step.reply.Err?)
            && (!accepted && snapshot.None? ==> step.life == l.(error := Some(Identity), phase := Error))
            && (!accepted && snapshot.Some? && !l.SetAccount(snapshot.value).reply.Err? ==>
                  step.life == l.SetAccount(snapshot.value).life.(error := Some(Identity), phase := Error))
    ensures l.ApplyBootstrap(snapshot)
            == if snapshot.Some? then l.SetAccount(snapshot.value)
               else Step(l.(error := Some(Identity), phase := Error), Err(InvalidAccountAuthority))
  {
  }

  // ----- answers -----

  /** An answer nobody asked for fails the client and touches neither place nor route; an answered request is pending no more. */
  lemma AnswersExactly(l: Life, result: WorldFlowResult)
    ensures var step := l.ApplyWorldFlow(result);
            if !result.Validate() then step == Step(l, Err(InvalidWorldAuthority))
            else
              match result
              case LocationResult(_, snapshot) =>
                if l.pendingLocation != Some(snapshot.characterId) then
                  step == Step(l.(error := Some(InvalidServerAuthority), phase := Error), Err(InvalidAccountAuthority))
                else step.life.pendingLocation.None? && step.life.pendingTransfer == l.pendingTransfer
                     && (Some(snapshot.characterId) == l.Selected() ==> step.life.location == Some(snapshot))
              case TransferResult(_, mutationId, accepted, code, arrival, _) =>
                if l.pendingTransfer != Some(mutationId) then
                  step == Step(l.(error := Some(InvalidServerAuthority), phase := Error), Err(InvalidAccountAuthority))
                else
                  && step.life.pendingTransfer.None? && step.life.lastCode == Some(code)
                  && (!accepted && !step.reply.Err? ==> step.life.phase == Error)
                  && (arrival.Some? && Some(arrival.value.characterId) == l.Selected() ==> step.life.location == arrival)
                  && (arrival.None? ==> step == Step(l.(pendingTransfer := None, lastCode := Some(code), phase := Error), Ok))
              case ErrorResult(_, code, arrival) =>
                && step.life.pendingTransfer.None? && step.life.lastCode == Some(code)
                && (!step.reply.Err? ==> step.life.phase == Error)
                && (arrival.Some? && Some(arrival.value.characterId) == l.Selected() ==> step.life.location == arrival)
                && (arrival.None? ==> step == Step(l.(pendingTransfer := None, lastCode := Some(code), phase := Error), Ok))
  {
  }

  /** An answer says nothing usable: unnumbered, unnamed, or its verdict, code, place and receipt do not go together. */
  predicate Malformed(result: WorldFlowResult) {
    || result.sequence == 0
    || match result
       case LocationResult(_, snapshot) => !snapshot.Validate()
       case TransferResult(_, mutationId, accepted, code, arrival, transferId) =>
         || mutationId == 0
         || accepted != (code == TransferAccepted)
         || (accepted && (arrival.None? || transferId.None?))
         || (!accepted && transferId.Some?)
         || transferId == Some(0)
         || (arrival.Some? && !arrival.value.Validate())
       case ErrorResult(_, code, arrival) => code == TransferAccepted || (arrival.Some? && !arrival.value.Validate())
  }

  /** Exactly the malformed answers are refused as such, and they change nothing. */
  lemma MalformedIsRefused(l: Life, result: WorldFlowResult)
    ensures Malformed(result) <==> l.ApplyWorldFlow(result).reply == Err(InvalidWorldAuthority)
    ensures Malformed(result) ==> l.ApplyWorldFlow(result).life == l
  {
  }

  /** A place is accepted only for the selected character; character select needs no route, a world place does. */
  lemma PlaceExactly(l: Life, snapshot: LocationSnapshot)
    ensures var step := l.AcceptLocation(snapshot);
            if !snapshot.Validate() || l.Selected() != Some(snapshot.characterId) then
              step == Step(l.(error := Some(InvalidServerAuthority), phase := Error), Err(InvalidAccountAuthority))
            else if snapshot.location.CharacterSelect? then
              step == Step(l.(location := Some(snapshot), phase := LifePhase.CharacterSelect), Ok)
            else if l.route.None? then step == Step(l.(location := Some(snapshot)), Err(FeatureNotNegotiated))
            else
              && step.life == l.(location := Some(snapshot), route := step.life.route, phase := step.life.phase)
              && (R.Apply(l.route.value, R.LocationCall(snapshot)).reply.Fail? ==>
                    step == Step(l.(location := Some(snapshot), route := Some(R.Apply(l.route.value, R.LocationCall(snapshot)).model)),
                                 Err(RouteFailed(R.Apply(l.route.value, R.LocationCall(snapshot)).reply.error))))
  {
  }

  /** After the streams are resolved the outer phase is the image of the route's. */
  lemma ResolvedPhase(l: Life)
    requires l.route.Some? && l.Resolve().reply == Ok
    ensures var (phase, route) := (l.Resolve().life.phase, l.Resolve().life.route.value);
            && (phase == LifePhase.Hall <==>
                  route.phase == R.Controllable && route.state.Some? && route.state.value.scene == LanternHalls)
            && (phase == PrivateRoute <==>
                  route.phase == R.Controllable && route.state.Some? && route.state.value.scene != LanternHalls)
            && (phase == LifePhase.TerminalPending <==> route.phase == R.TerminalPending)
            && (phase == LifePhase.Disabled <==> route.phase == R.Disabled)
            && (phase == Error <==> route.phase == R.Fatal)
            && phase in {LifePhase.Hall, PrivateRoute, LifePhase.TerminalPending, LifePhase.Disabled, Error, LoadingAuthority}
  {
  }

  /** A projection is held, and the place known is of its character version. */
  predicate ReadinessDue(l: Life) {
    && l.route.Some? && l.route.value.state.Some? && l.location.Some?
    && l.location.value.characterVersion == l.route.value.state.value.characterVersion
  }

  /**
   * Nothing is compiled unless it is due. Once it is, the route holds the readiness of exactly its own
   * projection under the compiled world, unless the streams agree that the route is terminal.
   */
  lemma CompiledExactly(l: Life)
    requires P.Held(l)
    requires l.route.Some? ==> RA.Telling(l.route.value) && !l.route.value.phase.Fatal?
    ensures var step := l.ApplyCompiledReadiness();
            && (!ReadinessDue(l) ==> step == Step(l, Ok))
            && (ReadinessDue(l) && l.route.value.featureAuthorized ==>
                  && step.reply == Ok && step.life == l.(route := step.life.route) && step.life.route.Some?
                  && var (route, state) := (step.life.route.value, l.route.value.state.value);
                  && route.state == Some(state) && route.location == l.route.value.location
                  && RA.Resolved(route)
                  && (route.readiness.None? <==> RA.Aligned(route) && state.phase == RouteTerminalPending)
                  && (route.readiness.Some? ==>
                        ReadinessMatchesState(route.readiness.value, state) && route.readiness.value.worldRevision == l.worldRevision))
  {
    if ReadinessDue(l) {
      RA.ReadinessExactly(l.route.value, CompiledReadiness(l.route.value.state.value, l.worldRevision));
    }
  }

  // ----- what is forgotten -----

  /** A lost link forgets the place and every request, and takes the route's deliveries and token but not its projection. */
  lemma LinkLossForgets(l: Life)
    requires P.Held(l)
    ensures var after := l.TransportLost();
            && after == l.(location := None, pendingLocation := None, pendingTransfer := None, phase := Disconnected, route := after.route)
            && (l.route.Some? <==> after.route.Some?)
            && (l.route.Some? ==> RA.Bare(after.route.value) && !after.route.value.advanceAuthorized
                                  && after.route.value.state == l.route.value.state)
  {
    if l.route.Some? {
      RA.RevocationStep(l.route.value, R.LinkLostCall);
    }
  }

  /** A retry forgets the failure, the place and every request, so the selected character's place is asked for again. */
  lemma RetryAsksAgain(l: Life)
    ensures var again := l.Retry();
            && again.error.None? && again.phase == LoadingAuthority
            && again == l.(location := None, pendingLocation := None, pendingTransfer := None,
                           error := again.error, phase := again.phase)
            && (l.Selected().Some? && l.nextSequence < U32_MAX ==>
                  again.BeginLocationQuery().reply == Sent(LocationRequest(l.nextSequence, l.Selected().value)))
  {
  }

  /** A request that could not be queued is forgotten again, and only its sequence and the phase tell of it. */
  lemma UnsentIsForgotten(l: Life, command: Command, issuedAt: u64, minted: Option<Id>)
    ensures var (query, after) := (l.BeginLocationQuery(), P.Next(l, P.LocationQueried(false)));
            if query.reply.Sent? then after == l.(nextSequence := l.nextSequence + 1, phase := Error) else after == query.life
    ensures var (transfer, after) := (l.BeginTransfer(command, issuedAt, minted), P.Next(l, P.TransferBegun(command, issuedAt, minted, false)));
            if transfer.reply.Sent? then after == transfer.life.(pendingTransfer := None, phase := Error) else after == transfer.life
  {
  }

  /** A stored recall or extraction forgets the place and refreshes the route; a refused answer changes nothing. */
  lemma StoredResultForgets(l: Life, admitted: bool, stored: bool)
    ensures var step := l.ApplyTerminalResult(admitted, stored);
            && (!admitted ==> step == Step(l, Err(InvalidSnapshotAuthority)))
            && (admitted && !stored ==> step == Step(l, Ok))
            && (admitted && stored ==>
                  && step.life.location.None? && step.life.pendingLocation.None?
                  && step.life == l.(location := None, pendingLocation := None, route := step.life.route, phase := step.life.phase)
                  && (step.reply == Ok <==> l.route.None? || (l.route.value.featureAuthorized && !l.route.value.phase.Fatal?))
                  && (step.reply == Ok ==> step.life.phase == LoadingAuthority
                                           && (l.route.Some? ==> step.life.route.Some? && Refreshed(l.route.value, step.life.route.value))))
  {
  }

  // ----- either order -----

  lemma CompiledIsConsistent(l: Life, character: Id, frame: ReliableFrame, snapshot: LocationSnapshot)
    requires W.NewlyBound(l, character) && W.FrameFor(frame, character, l.routeRevision)
    requires snapshot.Validate() && LocationMatchesState(snapshot, frame.event.state)
    requires snapshot.characterVersion == frame.event.state.characterVersion
    ensures RC.Consistent(l.route.value, frame, snapshot, CompiledReadiness(frame.event.state, l.worldRevision))
  {
  }

  /** What a life client is once place and projection have both arrived. */
  predicate Arrived(l: Life, before: Life, frame: ReliableFrame, snapshot: LocationSnapshot)
    requires frame.event.RouteStateEvent? && before.route.Some?
    requires RC.Consistent(before.route.value, frame, snapshot, CompiledReadiness(frame.event.state, before.worldRevision))
  {
    var state := frame.event.state;
    l == before.(
      pendingLocation := None, location := Some(snapshot),
      route := Some(RC.Merged(before.route.value, frame, snapshot, CompiledReadiness(state, before.worldRevision), true, true, true)),
      phase := if state.phase == RouteTerminalPending then LifePhase.TerminalPending
               else if state.scene == LanternHalls then LifePhase.Hall else PrivateRoute)
  }

  lemma PlaceArrives(l: Life, character: Id, frame: ReliableFrame, sequence: u32, snapshot: LocationSnapshot)
    requires W.NewlyBound(l, character) && l.pendingLocation == Some(character) && frame.event.RouteStateEvent?
    requires RC.Consistent(l.route.value, frame, snapshot, CompiledReadiness(frame.event.state, l.worldRevision))
    requires sequence != 0 && snapshot.characterId == character && !snapshot.location.CharacterSelect?
    ensures P.Next(l, P.Delivered(P.WorldFlowEvent(LocationResult(sequence, snapshot))))
            == l.(pendingLocation := None, location := Some(snapshot), phase := LoadingAuthority,
                  route := Some(RC.Merged(l.route.value, frame, snapshot, CompiledReadiness(frame.event.state, l.worldRevision),
                                          false, true, false)))
  {
    RC.MergeLocation(l.route.value, frame, snapshot, CompiledReadiness(frame.event.state, l.worldRevision), false, false, false);
  }

  lemma ProjectionArrives(l: Life, character: Id, frame: ReliableFrame, snapshot: LocationSnapshot)
    requires W.NewlyBound(l, character) && frame.event.RouteStateEvent?
    requires RC.Consistent(l.route.value, frame, snapshot, CompiledReadiness(frame.event.state, l.worldRevision))
    ensures P.Next(l, P.Delivered(P.RouteEvent(frame)))
            == l.(phase := LoadingAuthority,
                  route := Some(RC.Merged(l.route.value, frame, snapshot, CompiledReadiness(frame.event.state, l.worldRevision),
                                          true, false, false)))
  {
    RC.MergeFrame(l.route.value, frame, snapshot, CompiledReadiness(frame.event.state, l.worldRevision), false, false, false);
  }

  lemma PlaceFirst(l: Life, character: Id, frame: ReliableFrame, sequence: u32, snapshot: LocationSnapshot)
    requires W.NewlyBound(l, character) && W.FrameFor(frame, character, l.routeRevision) && l.pendingLocation == Some(character)
    requires sequence != 0 && snapshot.Validate() && LocationMatchesState(snapshot, frame.event.state)
    requires snapshot.characterVersion == frame.event.state.characterVersion
    ensures RC.Consistent(l.route.value, frame, snapshot, CompiledReadiness(frame.event.state, l.worldRevision))
    ensures Arrived(P.Next(P.Next(l, P.Delivered(P.WorldFlowEvent(LocationResult(sequence, snapshot)))), P.Delivered(P.RouteEvent(frame))),
                    l, frame, snapshot)
  {
    CompiledIsConsistent(l, character, frame, snapshot);
    var ready := CompiledReadiness(frame.event.state, l.worldRevision);
    PlaceArrives(l, character, frame, sequence, snapshot);
    RC.MergeFrame(l.route.value, frame, snapshot, ready, false, true, false);
    RC.MergeReadiness(l.route.value, frame, snapshot, ready, true, true, false);
  }

  lemma ProjectionFirst(l: Life, character: Id, frame: ReliableFrame, sequence: u32, snapshot: LocationSnapshot)
    requires W.NewlyBound(l, character) && W.FrameFor(frame, character, l.routeRevision) && l.pendingLocation == Some(character)
    requires sequence != 0 && snapshot.Validate() && LocationMatchesState(snapshot, frame.event.state)
    requires snapshot.characterVersion == frame.event.state.characterVersion
    ensures RC.Consistent(l.route.value, frame, snapshot, CompiledReadiness(frame.event.state, l.worldRevision))
    ensures Arrived(P.Next(P.Next(l, P.Delivered(P.RouteEvent(frame))), P.Delivered(P.WorldFlowEvent(LocationResult(sequence, snapshot)))),
                    l, frame, snapshot)
  {
    CompiledIsConsistent(l, character, frame, snapshot);
    var ready := CompiledReadiness(frame.event.state, l.worldRevision);
    ProjectionArrives(l, character, frame, snapshot);
    RC.MergeLocation(l.route.value, frame, snapshot, ready, true, false, false);
    RC.MergeReadiness(l.route.value, frame, snapshot, ready, true, true, false);
  }

  /**
   * A newly bound client that has asked for its place ends in one and the same state whichever of the
   * place and the projection arrives first: in the Hall or on the private route with control, or
   * waiting out a terminal.
   */
  lemma EitherOrderEnters(l: Life, character: Id, frame: ReliableFrame, sequence: u32, snapshot: LocationSnapshot)
    requires W.NewlyBound(l, character) && W.FrameFor(frame, character, l.routeRevision) && l.pendingLocation == Some(character)
    requires sequence != 0 && snapshot.Validate() && LocationMatchesState(snapshot, frame.event.state)
    requires snapshot.characterVersion == frame.event.state.characterVersion
    ensures var (place, projection) := (P.Delivered(P.WorldFlowEvent(LocationResult(sequence, snapshot))), P.Delivered(P.RouteEvent(frame)));
            var entered := P.Next(P.Next(l, place), projection);
            && entered == P.Next(P.Next(l, projection), place)
            && entered.location == Some(snapshot) && entered.pendingLocation.None?
            && (if frame.event.state.phase == RouteTerminalPending then entered.phase == LifePhase.TerminalPending
                else entered.phase == (if frame.event.state.scene == LanternHalls then LifePhase.Hall else PrivateRoute)
                     && entered.route.value.phase == R.Controllable)
  {
    PlaceFirst(l, character, frame, sequence, snapshot);
    ProjectionFirst(l, character, frame, sequence, snapshot);
  }
}
