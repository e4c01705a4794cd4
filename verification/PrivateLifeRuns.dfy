/** The outer phase refines the route model over every run of transport results and player actions. */
module PrivateLifeRuns {
  import opened Basics
  import opened RouteProtocol
  import opened PrivateLife
  import R = RouteModel
  import RR = RouteRuns

  /** What a transport poll delivers. */
  datatype Delivery =
    | ConnectingEvent
    | HelloEvent(hello: ServerHello)
    | BootstrapEvent(snapshot: Option<Account>)
    | MutationEvent(accepted: bool, updated: Option<Account>)
    | WorldFlowEvent(result: WorldFlowResult)
    | RouteEvent(frame: ReliableFrame)
    | TerminalEvent(admitted: bool, stored: bool)
    | LinkLostEvent
    | FatalEvent

  /** A delivery, the snapshot check that ends a poll, or an action outside the poll. */
  datatype Event =
    | Delivered(delivery: Delivery)
    | SnapshotsRejected
    | LocationQueried(sent: bool)
    | TransferBegun(command: Command, issuedAt: u64, minted: Option<Id>, queued: bool)
    | SelectionSent
    | ActionFailed
    | Retried

  function Deliver(l: Life, d: Delivery): Step {
    match d
    case ConnectingEvent => Step(l.(phase := Connecting), Ok)
    case HelloEvent(hello) => l.AcceptServerHello(hello)
    case BootstrapEvent(snapshot) => l.ApplyBootstrap(snapshot)
    case MutationEvent(accepted, updated) => l.ApplyCharacterMutation(accepted, updated)
    case WorldFlowEvent(result) => l.ApplyWorldFlow(result)
    case RouteEvent(frame) => l.ApplyRoute(frame)
    case TerminalEvent(admitted, stored) => l.ApplyTerminalResult(admitted, stored)
    case LinkLostEvent => Step(l.TransportLost(), Ok)
    case FatalEvent => Step(l.(error := Some(Transport), phase := Error), Ok)
  }

  /** The poll's rule: an error forces the error phase. */
  function Polled(step: Step): Life {
    if step.reply.Err? then step.life.(phase := Error) else step.life
  }

  function Next(l: Life, e: Event): Life {
    match e
    case Delivered(delivery) => Polled(Deliver(l, delivery))
    case SnapshotsRejected => l.(error := Some(InvalidServerAuthority), phase := Error)
    case LocationQueried(sent) =>
      var step := l.BeginLocationQuery();
      if step.reply.Sent? && !sent then step.life.(pendingLocation := None, phase := Error) else step.life
    case TransferBegun(command, issuedAt, minted, queued) =>
      var step := l.BeginTransfer(command, issuedAt, minted);
      if step.reply.Sent? && !queued then step.life.(pendingTransfer := None, phase := Error) else step.life
    case SelectionSent => l.(phase := Selecting)
    case ActionFailed => l.(phase := Error)
    case Retried => l.Retry()
  }

  function After(l: Life, run: seq<Event>): Life {
    if run == [] then l else Next(After(l, run[..|run| - 1]), run[|run| - 1])
  }

  // ----- what every run keeps -----

  /**
   * The held route model is authentic and compiled like the client; unless it is fatal, the last
   * handshake was compatible and the model is the selected character's.
   */
  predicate Bound(l: Life, route: R.Route) {
    && RR.Authentic(route)
    && route.worldRevision == l.worldRevision && route.routeRevision == l.routeRevision
    && l.routeRevision.Validate()
    && l.hello.Some? && Advertised(l.hello.value)
    && (!route.phase.Fatal? ==> l.hello.value.RouteCompatible() && l.Selected() == Some(route.characterId))
  }

  predicate Held(l: Life) {
    && (l.account.Some? ==> l.account.value.Validate())
    && (l.route.Some? ==> Bound(l, l.route.value))
  }

  /** A gameplay phase is backed by a controllable route model of the selected character in the matching scene. */
  predicate Refines(l: Life) {
    l.phase.Hall? || l.phase.PrivateRoute? ==>
      && l.route.Some? && l.route.value.phase.Controllable? && l.route.value.state.Some?
      && l.Selected() == Some(l.route.value.characterId)
      && (l.phase.Hall? <==> l.route.value.state.value.scene.LanternHalls?)
  }

  /** What a transition must establish: the route stays bound, and on success a gameplay phase is backed. */
  predicate Kept(step: Step) {
    Held(step.life) && (!step.reply.Err? ==> Refines(step.life))
  }

  /** No call but a handshake frees the route from its character, its content or a fatal phase. */
  lemma RouteStays(l: Life, call: R.Event)
    requires Held(l) && l.route.Some? && !call.HelloCall?
    ensures Held(l.CallRoute(call).life)
  {
    CallBinds(l, l.route.value, call);
  }

  lemma CallBinds(l: Life, route: R.Route, call: R.Event)
    requires Bound(l, route) && !call.HelloCall?
    ensures Bound(l, R.Apply(route, call).model)
  {
    RR.StepAuthentic(route, call);
    RouteConstants(route, call);
    if route.phase.Fatal? {
      RR.FatalLatch(route, call);
    }
  }

  lemma RouteConstants(r: R.Route, event: R.Event)
    ensures var after := R.Apply(r, event).model;
            after.characterId == r.characterId && after.worldRevision == r.worldRevision && after.routeRevision == r.routeRevision
  {
  }

  lemma SyncRefines(l: Life)
    requires Held(l) && l.route.Some?
    ensures Held(l.SyncPhase()) && Refines(l.SyncPhase())
  {
  }

  lemma ReadinessHeld(l: Life)
    requires Held(l) && l.route.Some?
    ensures Held(l.ApplyCompiledReadiness().life) && l.ApplyCompiledReadiness().life.route.Some?
  {
    if l.route.value.state.Some? {
      RouteStays(l, R.ReadinessCall(CompiledReadiness(l.route.value.state.value, l.worldRevision)));
    }
  }

  lemma ResolveKept(l: Life)
    requires Held(l) && l.route.Some?
    ensures Kept(l.Resolve())
  {
    ReadinessHeld(l);
    SyncRefines(l.ApplyCompiledReadiness().life);
  }

  /** A call of the route model, resolved unless it failed. */
  lemma CallResolveKept(l: Life, call: R.Event)
    requires Held(l) && l.route.Some? && !call.HelloCall?
    ensures var called := l.CallRoute(call); Kept(if called.reply.Err? then called else called.life.Resolve())
  {
    RouteStays(l, call);
    ResolveKept(l.CallRoute(call).life);
  }

  lemma LocationKept(l: Life, snapshot: LocationSnapshot)
    requires Held(l)
    ensures Kept(l.AcceptLocation(snapshot))
  {
    if l.route.Some? {
      CallResolveKept(l.(location := Some(snapshot)), R.LocationCall(snapshot));
    }
  }

  lemma RouteKept(l: Life, frame: ReliableFrame)
    requires Held(l)
    ensures Kept(l.ApplyRoute(frame))
  {
    if l.route.Some? {
      CallResolveKept(l, R.ReliableCall(frame));
    }
  }

  lemma HelloBinds(r: R.Route, hello: ServerHello)
    requires RR.Authentic(r)
    ensures var after := r.ServerHello(hello).model;
            && RR.Authentic(after)
            && after.characterId == r.characterId && after.worldRevision == r.worldRevision && after.routeRevision == r.routeRevision
            && (!hello.RouteCompatible() ==> after.phase.Fatal?)
            && !after.phase.Controllable?
            && (r.ServerHello(hello).reply.Pass? <==> hello.RouteCompatible())
  {
    RR.StepAuthentic(r, R.HelloCall(hello));
  }

  /** Rebinding needs only that a route of another character is fatal whenever the handshake is incompatible. */
  lemma RebindHeld(l: Life)
    requires l.account.Some? ==> l.account.value.Validate()
    requires l.route.Some? ==>
               && RR.Authentic(l.route.value)
               && l.route.value.worldRevision == l.worldRevision && l.route.value.routeRevision == l.routeRevision
               && l.routeRevision.Validate()
               && l.hello.Some?
               && (l.Selected() != Some(l.route.value.characterId) && !l.hello.value.RouteCompatible() ==> l.route.value.phase.Fatal?)
    ensures Held(l.RebindSelectedRoute().life)
    ensures l.RebindSelectedRoute().life == l.(route := l.RebindSelectedRoute().life.route)
  {
    if l.hello.Some? && Advertised(l.hello.value) && l.Selected().Some? {
      if l.route.Some? && l.route.value.characterId == l.Selected().value {
        HelloBinds(l.route.value, l.hello.value);
      } else {
        HelloBinds(R.Fresh(l.Selected().value, l.worldRevision, l.routeRevision), l.hello.value);
      }
    }
  }

  lemma HelloKept(l: Life, hello: ServerHello)
    requires Held(l)
    ensures Kept(l.AcceptServerHello(hello))
  {
    if hello.Validate() && Advertised(hello) {
      RebindHeld(l.(hello := Some(hello), error := None, phase := LoadingAuthority));
    }
  }

  lemma AccountKept(l: Life, snapshot: Account)
    requires Held(l)
    ensures Kept(l.SetAccount(snapshot))
  {
    if snapshot.Validate() && snapshot.selected != l.Selected() {
      RebindHeld(l.(account := Some(snapshot), location := None, pendingLocation := None, pendingTransfer := None));
    }
  }

  lemma WorldFlowKept(l: Life, result: WorldFlowResult)
    requires Held(l)
    ensures Kept(l.ApplyWorldFlow(result))
  {
    match result {
      case LocationResult(_, snapshot) => LocationKept(l.(pendingLocation := None), snapshot);
      case TransferResult(_, mutationId, accepted, code, arrival, _) =>
        if arrival.Some? { LocationKept(l.(pendingTransfer := None, lastCode := Some(code)), arrival.value); }
      case ErrorResult(_, code, arrival) =>
        if arrival.Some? { LocationKept(l.(pendingTransfer := None, lastCode := Some(code)), arrival.value); }
    }
  }

  lemma LeaveKept(l: Life)
    requires Held(l)
    ensures Kept(l.LeaveDanger())
  {
    if l.route.Some? {
      RouteStays(l.(location := None, pendingLocation := None), R.TransferCall);
    }
  }

  lemma DeliverKept(l: Life, d: Delivery)
    requires Held(l) && Refines(l)
    ensures Kept(Deliver(l, d))
  {
    match d {
      case ConnectingEvent =>
      case HelloEvent(hello) => HelloKept(l, hello);
      case BootstrapEvent(snapshot) => if snapshot.Some? { AccountKept(l, snapshot.value); }
      case MutationEvent(accepted, updated) => if updated.Some? { AccountKept(l, updated.value); }
      case WorldFlowEvent(result) => WorldFlowKept(l, result);
      case RouteEvent(frame) => RouteKept(l, frame);
      case TerminalEvent(admitted, stored) => LeaveKept(l);
      case LinkLostEvent => if l.route.Some? { RouteStays(l, R.LinkLostCall); }
      case FatalEvent =>
    }
  }

  /** Beginning a transfer keeps the refinement even when it fails, with no rule about errors. */
  lemma TransferKept(l: Life, command: Command, issuedAt: u64, minted: Option<Id>)
    requires Held(l) && Refines(l)
    ensures var step := l.BeginTransfer(command, issuedAt, minted); Held(step.life) && Refines(step.life)
  {
    if l.TransferReady(command, issuedAt, minted) && l.route.Some? {
      RouteStays(l.(nextSequence := l.nextSequence + 1, pendingTransfer := minted, lastCode := None), R.TransferCall);
    }
  }

  lemma NextKept(l: Life, e: Event)
    requires Held(l) && Refines(l)
    ensures Held(Next(l, e)) && Refines(Next(l, e))
  {
    match e {
      case Delivered(delivery) => DeliverKept(l, delivery);
      case SnapshotsRejected =>
      case LocationQueried(sent) =>
      case TransferBegun(command, issuedAt, minted, queued) => TransferKept(l, command, issuedAt, minted);
      case SelectionSent =>
      case ActionFailed =>
      case Retried =>
    }
  }

  lemma {:induction false} RunKept(worldRevision: Revision, routeRevision: Revision, run: seq<Event>)
    ensures var l := After(New(worldRevision, routeRevision), run); Held(l) && Refines(l)
  {
    if run != [] {
      RunKept(worldRevision, routeRevision, run[..|run| - 1]);
      NextKept(After(New(worldRevision, routeRevision), run[..|run| - 1]), run[|run| - 1]);
    }
  }

  /**
   * In every run, a gameplay phase means that the selected character's route model exists, holds
   * gameplay control because its three streams agree, and is in the scene the phase names.
   */
  lemma PhaseRefinesRoute(worldRevision: Revision, routeRevision: Revision, run: seq<Event>)
    ensures var l := After(New(worldRevision, routeRevision), run);
            l.phase.Hall? || l.phase.PrivateRoute? ==>
              && l.route.Some? && l.route.value.phase.Controllable? && RR.Agreed(l.route.value)
              && l.Selected() == Some(l.route.value.characterId)
              && (l.phase.Hall? <==> l.route.value.state.value.scene.LanternHalls?)
              && l.hello.Some? && l.hello.value.RouteCompatible() && Advertised(l.hello.value)
  {
    RunKept(worldRevision, routeRevision, run);
  }

  /** The poll's rule is needed: a frame that makes the route fatal leaves the phase as it was until the rule applies. */
  lemma RuleIsNeeded(l: Life, frame: ReliableFrame)
    requires l.phase.Hall? && l.route.Some? && !l.route.value.phase.Fatal?
    requires R.Apply(l.route.value, R.ReliableCall(frame)).model.phase.Fatal?
    ensures var step := l.ApplyRoute(frame);
            step.life.phase.Hall? && !Refines(step.life) && step.reply.Err? && Refines(Polled(step))
  {
  }

  /** A failed transfer is left pending exactly when everything was ready and the route refused the refresh. */
  lemma FailedTransferLeftPending(l: Life, command: Command, issuedAt: u64, minted: Option<Id>)
    requires l.pendingTransfer.None? && l.BeginTransfer(command, issuedAt, minted).reply.Err?
    ensures l.BeginTransfer(command, issuedAt, minted).life.pendingTransfer.Some?
            <==> l.TransferReady(command, issuedAt, minted) && l.route.Some?
                 && (!l.route.value.featureAuthorized || l.route.value.phase.Fatal?)
  {
  }

  // ----- a transfer that stays pending -----

  lemma AfterThree(l: Life, a: Event, b: Event, c: Event)
    ensures After(l, [a, b, c]) == Next(Next(Next(l, a), b), c)
  {
    assert [a, b, c][..2] == [a, b] && [a, b][..1] == [a] && [a][..0] == [];
    assert After(l, [a]) == Next(After(l, []), a);
    assert After(l, [a, b]) == Next(After(l, [a]), b);
  }

  lemma {:induction false} AfterSplit(l: Life, first: seq<Event>, rest: seq<Event>)
    ensures After(l, first + rest) == After(After(l, first), rest)
  {
    if rest == [] {
      assert first + rest == first;
    } else {
      assert (first + rest)[..|first + rest| - 1] == first + rest[..|rest| - 1];
      AfterSplit(l, first, rest[..|rest| - 1]);
    }
  }

  /** A handshake and a bootstrap that selects a character bind a new route model, with nothing held. */
  lemma FirstSelection(worldRevision: Revision, routeRevision: Revision, hello: ServerHello, account: Account)
    requires hello.RouteCompatible() && Advertised(hello)
    requires account.Validate() && account.selected.Some? && routeRevision.Validate()
    ensures var greeted := New(worldRevision, routeRevision).AcceptServerHello(hello);
            var chosen := greeted.life.SetAccount(account);
            && greeted.reply.Ok? && chosen.reply.Ok?
            && chosen.life == New(worldRevision, routeRevision).(
                 hello := Some(hello), account := Some(account), phase := LifePhase.CharacterSelect,
                 route := Some(R.Fresh(account.selected.value, worldRevision, routeRevision).ServerHello(hello).model))
  {
  }

  /** An authorised model with nothing held is made fatal by an invalid frame or another character's projection. */
  lemma ForeignFrameIsFatal(r: R.Route, frame: ReliableFrame)
    requires r.featureAuthorized && r.lastReliableSequence == 0
    requires !frame.Validate() || (frame.event.RouteStateEvent? && frame.event.state.characterId != r.characterId)
    ensures R.Apply(r, R.ReliableCall(frame)).model.phase.Fatal? && R.Apply(r, R.ReliableCall(frame)).reply.Fail?
  {
  }

  /** Handshake, bootstrap, and a frame that breaks the route. */
  function Opening(hello: ServerHello, account: Account, frame: ReliableFrame): seq<Event> {
    [Delivered(HelloEvent(hello)), Delivered(BootstrapEvent(Some(account))), Delivered(RouteEvent(frame))]
  }

  /** A location query, its answer, and Enter Hall. */
  function Ending(sequence: u32, snapshot: LocationSnapshot, issuedAt: u64, minted: Id, queued: bool): seq<Event> {
    [LocationQueried(true), Delivered(WorldFlowEvent(LocationResult(sequence, snapshot))),
     TransferBegun(EnterHallFromCharacterSelect, issuedAt, Some(minted), queued)]
  }

  lemma BrokenLife(l: Life, frame: ReliableFrame)
    requires l.route.Some? && l.route.value.featureAuthorized && l.route.value.lastReliableSequence == 0
    requires !frame.Validate() || (frame.event.RouteStateEvent? && frame.event.state.characterId != l.route.value.characterId)
    ensures var broken := Next(l, Delivered(RouteEvent(frame)));
            && broken == l.(phase := Error, route := broken.route)
            && broken.route.Some? && broken.route.value.phase.Fatal?
  {
    ForeignFrameIsFatal(l.route.value, frame);
  }

  lemma OpeningBreaks(worldRevision: Revision, routeRevision: Revision, hello: ServerHello, account: Account, frame: ReliableFrame)
    requires hello.RouteCompatible() && Advertised(hello) && routeRevision.Validate()
    requires account.Validate() && account.selected.Some?
    requires !frame.Validate() || (frame.event.RouteStateEvent? && frame.event.state.characterId != account.selected.value)
    ensures var l := After(New(worldRevision, routeRevision), Opening(hello, account, frame));
            && l == New(worldRevision, routeRevision).(
                      hello := Some(hello), account := Some(account), phase := Error, route := l.route)
            && l.route.Some? && l.route.value.phase.Fatal?
  {
    var first := New(worldRevision, routeRevision);
    AfterThree(first, Delivered(HelloEvent(hello)), Delivered(BootstrapEvent(Some(account))), Delivered(RouteEvent(frame)));
    FirstSelection(worldRevision, routeRevision, hello, account);
    BrokenLife(first.AcceptServerHello(hello).life.SetAccount(account).life, frame);
  }

  /** On a fatal route, asking for the place, hearing it is character select, and entering the hall. */
  lemma EndingSticks(l: Life, sequence: u32, snapshot: LocationSnapshot, issuedAt: u64, minted: Id, queued: bool)
    requires l.phase.Error? && l.location.None? && l.pendingLocation.None? && l.pendingTransfer.None? && l.nextSequence == 1
    requires l.Selected() == Some(snapshot.characterId)
    requires l.route.Some? && l.route.value.phase.Fatal?
    requires sequence != 0 && snapshot.Validate() && snapshot.location.CharacterSelect? && issuedAt != 0
    ensures var entered := After(l, Ending(sequence, snapshot, issuedAt, minted, queued));
            entered.phase.CharacterSelect? && entered.pendingTransfer == Some(minted)
  {
    AfterThree(l, LocationQueried(true), Delivered(WorldFlowEvent(LocationResult(sequence, snapshot))),
               TransferBegun(EnterHallFromCharacterSelect, issuedAt, Some(minted), queued));
    var asked := Next(l, LocationQueried(true));
    assert asked == l.(nextSequence := 2, pendingLocation := Some(snapshot.characterId));
    var answered := Next(asked, Delivered(WorldFlowEvent(LocationResult(sequence, snapshot))));
    assert answered == asked.(pendingLocation := None, location := Some(snapshot), phase := LifePhase.CharacterSelect);
  }

  /**
   * Six events from a new client end at character select with a transfer pending that was never sent,
   * and no transfer can be begun again.
   */
  lemma StuckTransferIsReachable(worldRevision: Revision, routeRevision: Revision, hello: ServerHello, account: Account,
                                 frame: ReliableFrame, sequence: u32, snapshot: LocationSnapshot,
                                 issuedAt: u64, minted: Id, queued: bool)
    requires hello.RouteCompatible() && Advertised(hello) && routeRevision.Validate()
    requires account.Validate() && account.selected == Some(snapshot.characterId)
    requires !frame.Validate() || (frame.event.RouteStateEvent? && frame.event.state.characterId != snapshot.characterId)
    requires sequence != 0 && snapshot.Validate() && snapshot.location.CharacterSelect? && issuedAt != 0
    ensures var run := Opening(hello, account, frame) + Ending(sequence, snapshot, issuedAt, minted, queued);
            var l := After(New(worldRevision, routeRevision), run);
            && l.phase.CharacterSelect? && l.pendingTransfer == Some(minted)
            && forall command, later: u64, other :: l.BeginTransfer(command, later, other) == Step(l, Err(ActionUnavailable))
  {
    AfterSplit(New(worldRevision, routeRevision), Opening(hello, account, frame), Ending(sequence, snapshot, issuedAt, minted, queued));
    OpeningBreaks(worldRevision, routeRevision, hello, account, frame);
    EndingSticks(After(New(worldRevision, routeRevision), Opening(hello, account, frame)), sequence, snapshot, issuedAt, minted, queued);
  }
}
