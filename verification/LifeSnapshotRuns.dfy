/** The snapshot client behind the whole private-life client, whose route model comes and goes with the selection. */
module LifeSnapshotRuns {
  import opened Basics
  import opened RouteProtocol
  import opened SnapshotWire
  import opened SnapshotClient
  import opened SnapshotClientRuns
  import opened PrivateLife
  import N = NativeAssembler
  import R = RouteModel
  import RR = RouteRuns
  import P = PrivateLifeRuns

  /** Both clients, and whether the selection has moved since the snapshot client was last bound or reset. */
  datatype World = World(life: Life, client: Client, moved: bool)

  /** What happens to the life client, or the end of a transport poll with the datagrams it drained. */
  datatype WorldEvent = LifeEvent(event: P.Event) | PollFinishes(queue: seq<Chunk>)

  /** A handshake, a lost link and a fatal transport error reset the snapshot client. */
  predicate Resets(e: P.Event) {
    e.Delivered? && (e.delivery.HelloEvent? || e.delivery.LinkLostEvent? || e.delivery.FatalEvent?)
  }

  function SnapshotOf(e: P.Event): Option<Account> {
    if e.Delivered? && e.delivery.BootstrapEvent? then e.delivery.snapshot
    else if e.Delivered? && e.delivery.MutationEvent? then e.delivery.updated
    else None
  }

  /** The event sets an account with another selection. */
  predicate Reselects(l: Life, e: P.Event) {
    SnapshotOf(e).Some? && SnapshotOf(e).value.Validate() && SnapshotOf(e).value.selected != l.Selected()
  }

  function Projection(l: Life): Option<RouteState> {
    if l.route.Some? then l.route.value.state else None
  }

  /** The binding succeeds or is given up; only a projection without a player identity leaves it as it was. */
  predicate Binds(route: Option<RouteState>) {
    route.Some? ==> LocalEntityId(route.value).Some?
  }

  function Poll(w: World, queue: seq<Chunk>): World {
    var bound := BindRoute(w.client, Projection(w.life));
    var done := if bound.ok then IngestQueue(bound.client, queue) else bound;
    World(if done.ok then w.life else P.Next(w.life, P.SnapshotsRejected), done.client, w.moved && !Binds(Projection(w.life)))
  }

  function Next(w: World, e: WorldEvent): World {
    match e
    case LifeEvent(event) =>
      if Resets(event) then World(P.Next(w.life, event), EMPTY, false)
      else World(P.Next(w.life, event), w.client, w.moved || Reselects(w.life, event))
    case PollFinishes(queue) => Poll(w, queue)
  }

  function After(w: World, run: seq<WorldEvent>): World {
    if run == [] then w else Next(After(w, run[..|run| - 1]), run[|run| - 1])
  }

  function Start(worldRevision: Revision, routeRevision: Revision): World {
    World(New(worldRevision, routeRevision), EMPTY, false)
  }

  // ----- one route model only advances -----

  /** A held route model is still held, and its authority has not gone back. */
  predicate Advanced(l: Life, after: Life) {
    l.route.Some? ==> after.route.Some? && RR.MarkOf(l.route.value).Le(RR.MarkOf(after.route.value))
  }

  lemma CallAdvances(l: Life, call: R.Event)
    requires P.Held(l) && l.route.Some? && !call.HelloCall?
    ensures Advanced(l, l.CallRoute(call).life) && P.Held(l.CallRoute(call).life)
  {
    RR.StepMonotone(l.route.value, call);
    P.RouteStays(l, call);
  }

  lemma ResolveAdvances(l: Life)
    requires P.Held(l)
    ensures Advanced(l, l.Resolve().life)
  {
    if l.route.Some? && l.route.value.state.Some? {
      CallAdvances(l, R.ReadinessCall(CompiledReadiness(l.route.value.state.value, l.worldRevision)));
    }
  }

  lemma CallResolveAdvances(l: Life, call: R.Event)
    requires P.Held(l) && l.route.Some? && !call.HelloCall?
    ensures var called := l.CallRoute(call); Advanced(l, if called.reply.Err? then called.life else called.life.Resolve().life)
  {
    CallAdvances(l, call);
    ResolveAdvances(l.CallRoute(call).life);
  }

  lemma LocationAdvances(l: Life, snapshot: LocationSnapshot)
    requires P.Held(l)
    ensures Advanced(l, l.AcceptLocation(snapshot).life)
  {
    if l.route.Some? {
      CallResolveAdvances(l.(location := Some(snapshot)), R.LocationCall(snapshot));
    }
  }

  lemma WorldFlowAdvances(l: Life, result: WorldFlowResult)
    requires P.Held(l)
    ensures Advanced(l, l.ApplyWorldFlow(result).life)
  {
    match result {
      case LocationResult(_, snapshot) => LocationAdvances(l.(pendingLocation := None), snapshot);
      case TransferResult(_, mutationId, accepted, code, arrival, _) =>
        if arrival.Some? { LocationAdvances(l.(pendingTransfer := None, lastCode := Some(code)), arrival.value); }
      case ErrorResult(_, code, arrival) =>
        if arrival.Some? { LocationAdvances(l.(pendingTransfer := None, lastCode := Some(code)), arrival.value); }
    }
  }

  lemma TransferAdvances(l: Life, command: Command, issuedAt: u64, minted: Option<Id>)
    requires P.Held(l)
    ensures Advanced(l, l.BeginTransfer(command, issuedAt, minted).life)
  {
    if l.TransferReady(command, issuedAt, minted) && l.route.Some? {
      CallAdvances(l.(nextSequence := l.nextSequence + 1, pendingTransfer := minted, lastCode := None), R.TransferCall);
    }
  }

  lemma AccountAdvances(l: Life, snapshot: Account)
    requires !snapshot.Validate() || snapshot.selected == l.Selected()
    ensures l.SetAccount(snapshot).life.route == l.route
  {
  }

  lemma DeliverAdvances(l: Life, d: P.Delivery)
    requires P.Held(l) && !Resets(P.Delivered(d)) && !Reselects(l, P.Delivered(d))
    ensures Advanced(l, P.Deliver(l, d).life)
  {
    match d {
      case ConnectingEvent =>
      case BootstrapEvent(snapshot) => if snapshot.Some? { AccountAdvances(l, snapshot.value); }
      case MutationEvent(accepted, updated) => if updated.Some? { AccountAdvances(l, updated.value); }
      case WorldFlowEvent(result) => WorldFlowAdvances(l, result);
      case RouteEvent(frame) => if l.route.Some? { CallResolveAdvances(l, R.ReliableCall(frame)); }
      case TerminalEvent(admitted, stored) =>
        if l.route.Some? { CallAdvances(l.(location := None, pendingLocation := None), R.TransferCall); }
    }
  }

  /** Every event but a reset and a re-selection keeps the route model and only advances its authority. */
  lemma EventAdvances(l: Life, e: P.Event)
    requires P.Held(l) && !Resets(e) && !Reselects(l, e)
    ensures Advanced(l, P.Next(l, e))
  {
    match e {
      case Delivered(delivery) => DeliverAdvances(l, delivery);
      case TransferBegun(command, issuedAt, minted, queued) => TransferAdvances(l, command, issuedAt, minted);
      case _ =>
    }
  }

  // ----- what every run keeps -----

  /** Unless the selection has moved, the held route model is at least as far as the binding. */
  predicate Leads(w: World) {
    w.client.version.Some? && !w.moved ==>
      && w.client.generation.Some? && w.life.route.Some?
      && RR.Mark(w.client.generation.value, w.client.version.value).Le(RR.MarkOf(w.life.route.value))
  }

  predicate Kept(w: World) {
    P.Held(w.life) && P.Refines(w.life) && Tidy(w.client) && Leads(w)
  }

  lemma PollTidy(w: World, queue: seq<Chunk>)
    requires Tidy(w.client)
    ensures Tidy(Poll(w, queue).client)
  {
    BindKeeps(w.client, Projection(w.life));
    IngestQueueKeeps(BindRoute(w.client, Projection(w.life)).client, queue);
  }

  lemma PollLeads(w: World, queue: seq<Chunk>)
    requires Tidy(w.client) && Leads(w)
    ensures Leads(Poll(w, queue))
  {
    var bound := BindRoute(w.client, Projection(w.life));
    BindKeeps(w.client, Projection(w.life));
    BindingFollows(w.client, Projection(w.life));
    IngestQueueKeeps(bound.client, queue);
  }

  lemma PollKept(w: World, queue: seq<Chunk>)
    requires Kept(w)
    ensures Kept(Poll(w, queue))
  {
    PollTidy(w, queue);
    PollLeads(w, queue);
    P.NextKept(w.life, P.SnapshotsRejected);
  }

  lemma EventKept(w: World, e: P.Event)
    requires Kept(w)
    ensures Kept(Next(w, LifeEvent(e)))
  {
    P.NextKept(w.life, e);
    if !Resets(e) && !Reselects(w.life, e) {
      EventAdvances(w.life, e);
    }
  }

  /**
   * In every run of both clients, re-selections included: the outer phase refines the route, the
   * buffer is bounded and newer than the binding, and the latest snapshot has distinct identities and
   * the one player the binding expects.
   */
  lemma {:induction false} WorldsAreKept(worldRevision: Revision, routeRevision: Revision, run: seq<WorldEvent>)
    ensures Kept(After(Start(worldRevision, routeRevision), run))
  {
    if run != [] {
      var w := After(Start(worldRevision, routeRevision), run[..|run| - 1]);
      WorldsAreKept(worldRevision, routeRevision, run[..|run| - 1]);
      match run[|run| - 1] {
        case LifeEvent(event) => EventKept(w, event);
        case PollFinishes(queue) => PollKept(w, queue);
      }
    }
  }

  // ----- exactly when the snapshot on show outruns the binding -----

  /** The projection has the bound generation and player, and an older version than the snapshot on show. */
  predicate Lags(c: Client, route: Option<RouteState>) {
    && route.Some? && LocalEntityId(route.value).Some?
    && c.generation == Some(route.value.actorGeneration) && c.localId == LocalEntityId(route.value)
    && c.latest.Some? && c.latest.value.stateVersion > route.value.stateVersion
  }

  /** The snapshot on show is the old one, or one of the bound version. */
  predicate Refreshed(c: Client, d: Client) {
    d.latest == c.latest || (d.latest.Some? && c.version == Some(d.latest.value.stateVersion))
  }

  lemma {:induction false} DeliverRefreshes(c: Client, chunks: seq<Chunk>)
    ensures SameBinding(c, Deliver(c, chunks).client) && Refreshed(c, Deliver(c, chunks).client)
    decreases |chunks|
  {
    if chunks != [] {
      ApplyBoundKeeps(c, chunks[0]);
      DeliverRefreshes(ApplyBound(c, chunks[0]).client, chunks[1..]);
    }
  }

  lemma {:induction false} QueueRefreshes(c: Client, chunks: seq<Chunk>)
    requires Tidy(c)
    ensures IngestQueue(c, chunks).client.version == c.version && Refreshed(c, IngestQueue(c, chunks).client)
    decreases |chunks|
  {
    if chunks != [] {
      ApplyBoundKeeps(c, chunks[0]);
      IngestKeeps(c, chunks[0]);
      QueueRefreshes(Ingest(c, chunks[0]).client, chunks[1..]);
    }
  }

  /** After the binding itself, the snapshot on show is either old and kept, or of the bound version. */
  lemma BindRefreshes(c: Client, route: RouteState)
    requires Tidy(c) && LocalEntityId(route).Some?
    ensures var (kept, d) := (Rebind(c, route, LocalEntityId(route).value), BindRoute(c, Some(route)).client);
            && Tidy(d) && d.version == Some(route.stateVersion)
            && Refreshed(kept, d)
            && (kept.latest == if c.generation == Some(route.actorGeneration) && c.localId == LocalEntityId(route) then c.latest else None)
  {
    var kept := Rebind(c, route, LocalEntityId(route).value);
    BindKeeps(c, Some(route));
    BindingFollows(c, Some(route));
    DeliverRefreshes(kept, Sorted(AtVersion(c.buffered, route.stateVersion)));
  }

  /**
   * A poll leaves the snapshot on show newer than the bound version exactly when the projection lags
   * and no snapshot of its own version completed.
   */
  lemma PollCurrentExactly(w: World, queue: seq<Chunk>)
    requires Tidy(w.client) && Current(w.client)
    ensures Current(Poll(w, queue).client)
            <==> !(Lags(w.client, Projection(w.life)) && Poll(w, queue).client.latest == w.client.latest)
  {
    var route := Projection(w.life);
    var bound := BindRoute(w.client, route);
    if route.None? {
      QueueRefreshes(EMPTY, queue);
    } else if LocalEntityId(route.value).Some? {
      BindRefreshes(w.client, route.value);
      if bound.ok {
        QueueRefreshes(bound.client, queue);
      }
    }
  }

  /** A lagging projection belongs to another route model than the one the client was bound to. */
  lemma LagNeedsReselection(w: World)
    requires Kept(w) && Current(w.client) && Lags(w.client, Projection(w.life))
    ensures w.moved
  {
  }

  /**
   * One event of a kept world: the snapshot on show becomes newer than the bound version exactly at
   * the end of a poll whose projection lags, unless a new snapshot completes, and then the selection
   * has moved since the last binding.
   */
  lemma CurrentLostExactly(w: World, e: WorldEvent)
    requires Kept(w) && Current(w.client)
    ensures Current(Next(w, e).client)
            <==> !(e.PollFinishes? && Lags(w.client, Projection(w.life)) && Next(w, e).client.latest == w.client.latest)
    ensures !Current(Next(w, e).client) ==> w.moved
  {
    if e.PollFinishes? {
      PollCurrentExactly(w, e.queue);
      if Lags(w.client, Projection(w.life)) {
        LagNeedsReselection(w);
      }
    }
  }

  /** In every run in which no poll ends on a lagging projection the snapshot on show is never newer than the binding. */
  lemma {:induction false} StaysCurrent(worldRevision: Revision, routeRevision: Revision, run: seq<WorldEvent>)
    requires forall i {:trigger run[i]} :: 0 <= i < |run| && run[i].PollFinishes? ==>
               var w := After(Start(worldRevision, routeRevision), run[..i]); !Lags(w.client, Projection(w.life))
    ensures Current(After(Start(worldRevision, routeRevision), run).client)
  {
    if run != [] {
      var before := run[..|run| - 1];
      forall i | 0 <= i < |before| && before[i].PollFinishes?
        ensures var w := After(Start(worldRevision, routeRevision), before[..i]); !Lags(w.client, Projection(w.life))
      {
        assert before[i] == run[i] && before[..i] == run[..i];
      }
      StaysCurrent(worldRevision, routeRevision, before);
      WorldsAreKept(worldRevision, routeRevision, before);
      CurrentLostExactly(After(Start(worldRevision, routeRevision), before), run[|run| - 1]);
    }
  }

  // ----- a run that ends on a lagging projection -----

  lemma AfterThree(w: World, a: WorldEvent, b: WorldEvent, c: WorldEvent)
    ensures After(w, [a, b, c]) == Next(Next(Next(w, a), b), c)
  {
    assert [a, b, c][..2] == [a, b] && [a, b][..1] == [a] && [a][..0] == [];
    assert After(w, [a]) == Next(After(w, []), a);
    assert After(w, [a, b]) == Next(After(w, [a]), b);
  }

  lemma {:induction false} AfterSplit(w: World, first: seq<WorldEvent>, rest: seq<WorldEvent>)
    ensures After(w, first + rest) == After(After(w, first), rest)
  {
    if rest == [] {
      assert first + rest == first;
    } else {
      assert (first + rest)[..|first + rest| - 1] == first + rest[..|rest| - 1];
      AfterSplit(w, first, rest[..|rest| - 1]);
    }
  }

  /** A life client whose compatible handshake has just bound a new route model for the character. */
  predicate NewlyBound(l: Life, character: Id) {
    && l.hello.Some? && l.hello.value.RouteCompatible() && Advertised(l.hello.value) && l.routeRevision.Validate()
    && l.Selected() == Some(character) && l.location.None? && !l.phase.Disabled?
    && l.route == Some(R.Fresh(character, l.worldRevision, l.routeRevision).ServerHello(l.hello.value).model)
  }

  /** The frame carries a valid projection of this character and the compiled content. */
  predicate FrameFor(frame: ReliableFrame, character: Id, routeRevision: Revision) {
    && frame.Validate() && frame.event.RouteStateEvent?
    && frame.event.state.characterId == character && frame.event.state.contentRevision == routeRevision
  }

  lemma SelectionBinds(l: Life, account: Account)
    requires l.hello.Some? && l.hello.value.RouteCompatible() && Advertised(l.hello.value) && l.routeRevision.Validate()
    requires account.Validate() && account.selected.Some? && account.selected != l.Selected() && !l.phase.Disabled?
    requires l.route.Some? ==> Some(l.route.value.characterId) != account.selected
    ensures l.SetAccount(account).reply.Ok? && NewlyBound(l.SetAccount(account).life, account.selected.value)
    ensures l.SetAccount(account).life.worldRevision == l.worldRevision && l.SetAccount(account).life.routeRevision == l.routeRevision
  {
  }

  lemma FrameIsTaken(r: R.Route, frame: ReliableFrame)
    requires r.featureAuthorized && !r.phase.Fatal? && r.lastReliableSequence == 0 && r.retiredFloor == 0
    requires r.state.None? && r.location.None? && r.readiness.None?
    requires FrameFor(frame, r.characterId, r.routeRevision)
    ensures var step := R.Apply(r, R.ReliableCall(frame));
            step.reply.Pass? && step.model.state == Some(frame.event.state) && step.model.characterId == r.characterId
  {
    assert r.Admit(frame.event.state).Admitted?;
  }

  lemma ProjectionArrives(l: Life, character: Id, frame: ReliableFrame)
    requires NewlyBound(l, character) && FrameFor(frame, character, l.routeRevision)
    ensures var after := P.Next(l, P.Delivered(P.RouteEvent(frame)));
            && Projection(after) == Some(frame.event.state)
            && after.hello == l.hello && after.account == l.account && after.routeRevision == l.routeRevision
            && after.route.value.characterId == character
            && !after.phase.Disabled?
  {
    FrameIsTaken(l.route.value, frame);
    RR.StepAuthentic(R.Fresh(character, l.worldRevision, l.routeRevision), R.HelloCall(l.hello.value));
    var taken := R.Apply(l.route.value, R.ReliableCall(frame)).model;
    StillAuthorized(l.route.value, frame);
    assert l.ApplyRoute(frame).life == l.(route := Some(taken), phase := PhaseOf(taken)) && l.ApplyRoute(frame).reply.Ok?;
  }

  lemma FrameKeepsFeature(r: R.Route, frame: ReliableFrame)
    ensures R.Apply(r, R.ReliableCall(frame)).model.featureAuthorized == r.featureAuthorized
  {
  }

  lemma StillAuthorized(r: R.Route, frame: ReliableFrame)
    requires r.featureAuthorized && RR.Authentic(r)
    ensures !R.Apply(r, R.ReliableCall(frame)).model.phase.Disabled?
  {
    FrameKeepsFeature(r, frame);
    RR.StepAuthentic(r, R.ReliableCall(frame));
  }

  /** One whole snapshot in one chunk, of the bound version and with the expected player, goes on show. */
  lemma SingleChunkShows(c: Client, chunk: Chunk)
    requires c.assembler == N.EMPTY && chunk.Validate() && chunk.index == 0 && chunk.count == 1
    requires c.version == Some(chunk.stateVersion) && c.localId.Some? && OnlyPlayerIs(chunk.entities, c.localId.value)
    ensures var shown := ApplyBound(c, chunk);
            shown.ok && shown.client.latest.Some? && shown.client.latest.value.stateVersion == chunk.stateVersion
  {
    var chunks: map<nat, seq<Entity>> := map[][0 := chunk.entities];
    assert Flatten(chunks, 1) == Flatten(chunks, 0) + chunk.entities == chunk.entities;
    assert |chunks| == 1;
  }

  lemma FirstPoll(w: World, route: RouteState, chunk: Chunk)
    requires w.client == EMPTY && Projection(w.life) == Some(route) && LocalEntityId(route).Some?
    requires chunk.Validate() && chunk.index == 0 && chunk.count == 1 && chunk.stateVersion == route.stateVersion
    requires OnlyPlayerIs(chunk.entities, LocalEntityId(route).value)
    ensures var after := Poll(w, [chunk]);
            && after.life == w.life && !after.moved
            && after.client.generation == Some(route.actorGeneration) && after.client.localId == LocalEntityId(route)
            && after.client.version == Some(route.stateVersion) && after.client.buffered == map[]
            && after.client.latest.Some? && after.client.latest.value.stateVersion == route.stateVersion
  {
    var bound := Rebind(EMPTY, route, LocalEntityId(route).value);
    assert AtVersion(map[], route.stateVersion) == map[] && AfterVersion(map[], route.stateVersion) == map[];
    assert BindRoute(EMPTY, Some(route)).client == bound && BindRoute(EMPTY, Some(route)).ok;
    SingleChunkShows(bound, chunk);
    ApplyBoundKeeps(bound, chunk);
    var shown := ApplyBound(bound, chunk);
    assert Ingest(bound, chunk) == shown;
    assert IngestQueue(bound, [chunk]).client == shown.client && IngestQueue(bound, [chunk]).ok;
  }

  /** The handshake, the first character's selection and projection, and a poll with its snapshot. */
  function Opening(hello: ServerHello, first: Account, frame: ReliableFrame, chunk: Chunk): seq<WorldEvent> {
    [LifeEvent(P.Delivered(P.HelloEvent(hello))), LifeEvent(P.Delivered(P.BootstrapEvent(Some(first)))),
     LifeEvent(P.Delivered(P.RouteEvent(frame)))] + [PollFinishes([chunk])]
  }

  /** One poll that delivers the second character's selection and its projection, and no datagram. */
  function OnePoll(second: Account, frame: ReliableFrame): seq<WorldEvent> {
    [LifeEvent(P.Delivered(P.MutationEvent(true, Some(second)))), LifeEvent(P.Delivered(P.RouteEvent(frame))), PollFinishes([])]
  }

  predicate ShowsSnapshot(w: World, route: RouteState) {
    && w.life.hello.Some? && w.life.hello.value.RouteCompatible() && Advertised(w.life.hello.value)
    && w.life.routeRevision.Validate() && !w.life.phase.Disabled?
    && w.life.Selected() == Some(route.characterId)
    && w.life.route.Some? && w.life.route.value.characterId == route.characterId
    && w.client.generation == Some(route.actorGeneration) && w.client.localId == LocalEntityId(route)
    && w.client.version == Some(route.stateVersion) && w.client.buffered == map[]
    && w.client.latest.Some? && w.client.latest.value.stateVersion == route.stateVersion
  }

  lemma OpeningShows(worldRevision: Revision, routeRevision: Revision, hello: ServerHello, first: Account,
                     frame: ReliableFrame, chunk: Chunk)
    requires hello.RouteCompatible() && Advertised(hello) && routeRevision.Validate()
    requires first.Validate() && first.selected.Some? && FrameFor(frame, first.selected.value, routeRevision)
    requires LocalEntityId(frame.event.state).Some?
    requires chunk.Validate() && chunk.index == 0 && chunk.count == 1 && chunk.stateVersion == frame.event.state.stateVersion
    requires OnlyPlayerIs(chunk.entities, LocalEntityId(frame.event.state).value)
    ensures var w := After(Start(worldRevision, routeRevision), Opening(hello, first, frame, chunk));
            ShowsSnapshot(w, frame.event.state) && w.life.routeRevision == routeRevision
  {
    var start := Start(worldRevision, routeRevision);
    var (a, b, c) := (LifeEvent(P.Delivered(P.HelloEvent(hello))), LifeEvent(P.Delivered(P.BootstrapEvent(Some(first)))),
                      LifeEvent(P.Delivered(P.RouteEvent(frame))));
    AfterSplit(start, [a, b, c], [PollFinishes([chunk])]);
    AfterThree(start, a, b, c);
    var greeted := start.life.AcceptServerHello(hello).life;
    assert P.Next(start.life, P.Delivered(P.HelloEvent(hello))) == greeted;
    SelectionBinds(greeted, first);
    var chosen := greeted.SetAccount(first).life;
    assert P.Next(greeted, P.Delivered(P.BootstrapEvent(Some(first)))) == chosen;
    ProjectionArrives(chosen, first.selected.value, frame);
    var arrived := After(start, [a, b, c]);
    assert arrived.life == P.Next(chosen, P.Delivered(P.RouteEvent(frame))) && arrived.client == EMPTY;
    FirstPoll(arrived, frame.event.state, chunk);
    assert [PollFinishes([chunk])][..0] == [];
    assert After(arrived, [PollFinishes([chunk])]) == Next(After(arrived, []), PollFinishes([chunk]));
  }

  lemma OnePollLags(w: World, route: RouteState, second: Account, frame: ReliableFrame)
    requires ShowsSnapshot(w, route)
    requires second.Validate() && second.selected.Some? && second.selected != Some(route.characterId)
    requires FrameFor(frame, second.selected.value, w.life.routeRevision)
    requires LocalEntityId(frame.event.state) == LocalEntityId(route) && LocalEntityId(route).Some?
    requires frame.event.state.actorGeneration == route.actorGeneration && frame.event.state.stateVersion < route.stateVersion
    ensures var after := After(w, OnePoll(second, frame)).client;
            after.version == Some(frame.event.state.stateVersion) && after.latest == w.client.latest && !Current(after)
  {
    var (a, b) := (LifeEvent(P.Delivered(P.MutationEvent(true, Some(second)))), LifeEvent(P.Delivered(P.RouteEvent(frame))));
    AfterThree(w, a, b, PollFinishes([]));
    SelectionBinds(w.life, second);
    var chosen := w.life.SetAccount(second).life;
    assert P.Next(w.life, P.Delivered(P.MutationEvent(true, Some(second)))) == chosen;
    ProjectionArrives(chosen, second.selected.value, frame);
    var state := frame.event.state;
    var arrived := Next(Next(w, a), b);
    assert arrived.client == w.client && Projection(arrived.life) == Some(state);
    assert AtVersion(map[], state.stateVersion) == map[] && AfterVersion(map[], state.stateVersion) == map[];
    assert BindRoute(w.client, Some(state)).client == Rebind(w.client, state, LocalEntityId(state).value);
  }

  /**
   * Seven events from a new client: when the second character's selection and projection arrive in one
   * poll, under the first one's generation and dungeon player and with an older version, the first
   * character's snapshot stays on show, newer than the version now bound.
   */
  lemma LagIsReachable(worldRevision: Revision, routeRevision: Revision, hello: ServerHello,
                       first: Account, frame: ReliableFrame, chunk: Chunk, second: Account, later: ReliableFrame)
    requires hello.RouteCompatible() && Advertised(hello) && routeRevision.Validate()
    requires first.Validate() && first.selected.Some? && FrameFor(frame, first.selected.value, routeRevision)
    requires second.Validate() && second.selected.Some? && FrameFor(later, second.selected.value, routeRevision)
    requires second.selected != first.selected
    requires !frame.event.state.scene.LanternHalls? && !later.event.state.scene.LanternHalls?
    requires later.event.state.actorGeneration == frame.event.state.actorGeneration
    requires later.event.state.stateVersion < frame.event.state.stateVersion
    requires PrivatePlayerEntityId(frame.event.state.actorGeneration).Some?
    requires chunk.Validate() && chunk.index == 0 && chunk.count == 1 && chunk.stateVersion == frame.event.state.stateVersion
    requires OnlyPlayerIs(chunk.entities, PrivatePlayerEntityId(frame.event.state.actorGeneration).value)
    ensures var run := Opening(hello, first, frame, chunk) + OnePoll(second, later);
            var c := After(Start(worldRevision, routeRevision), run).client;
            && c.version == Some(later.event.state.stateVersion)
            && c.latest.Some? && c.latest.value.stateVersion == frame.event.state.stateVersion
            && !Current(c)
  {
    AfterSplit(Start(worldRevision, routeRevision), Opening(hello, first, frame, chunk), OnePoll(second, later));
    OpeningShows(worldRevision, routeRevision, hello, first, frame, chunk);
    OnePollLags(After(Start(worldRevision, routeRevision), Opening(hello, first, frame, chunk)), frame.event.state, second, later);
  }
}
