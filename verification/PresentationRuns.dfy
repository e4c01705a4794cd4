/** What the combat presentation keeps over whole runs, and what a successful binding means. */
module PresentationRuns {
  import opened Basics
  import opened RouteProtocol
  import opened CombatWire
  import opened CombatPresentation
  import W = SnapshotWire
  import C = SnapshotClient
  import S = SnapshotClientRuns
  import RR = RouteRuns

  /** The table and the server tick of the last presentation state it accepted. */
  datatype Tracked = Tracked(table: Table, tick: u64)

  datatype Event =
    | StateCall(state: PresentationState, route: RouteState)
    | RouteCall(route: RouteState)
    | ResetCall

  /** The call is a presentation state that is accepted. */
  predicate Accepted(e: Event) {
    e.StateCall? && e.state.Validate() && Fits(e.state, e.route)
  }

  function Next(t: Tracked, e: Event): Tracked {
    match e
    case StateCall(state, route) => Tracked(Apply(t.table, state, route).table, if Accepted(e) then state.serverTick else t.tick)
    case RouteCall(route) => Tracked(RetainForRoute(t.table, route), t.tick)
    case ResetCall => Tracked(EMPTY, t.tick)
  }

  function After(run: seq<Event>): Tracked {
    if run == [] then Tracked(EMPTY, 0) else Next(After(run[..|run| - 1]), run[|run| - 1])
  }

  lemma {:induction false} ByIdHolds(actors: seq<Binding>)
    ensures forall id :: id in ById(actors) <==> exists actor :: actor in actors && actor.entityId == id
    ensures forall id :: id in ById(actors) ==> ById(actors)[id] in actors && ById(actors)[id].entityId == id
  {
    if actors != [] {
      var front, last := actors[..|actors| - 1], actors[|actors| - 1];
      ByIdHolds(front);
      assert actors == front + [last];
    }
  }

  /** A valid state binds every one of its actors, none lost to a repeated identity. */
  lemma ByIdKeepsAll(actors: seq<Binding>)
    requires forall k :: 0 < k < |actors| ==> actors[k - 1].entityId < actors[k].entityId
    ensures forall actor :: actor in actors ==> actor.entityId in ById(actors) && ById(actors)[actor.entityId] == actor
  {
    ByIdHolds(actors);
    forall actor | actor in actors ensures ById(actors)[actor.entityId] == actor {
      var other := ById(actors)[actor.entityId];
      var i :| 0 <= i < |actors| && actors[i] == actor;
      var j :| 0 <= j < |actors| && actors[j] == other;
      if i < j { ActorsAreDistinct(actors, i, j); }
      if j < i { ActorsAreDistinct(actors, j, i); }
    }
  }

  lemma {:induction false} AnnouncedHolds(standing: map<Cast, Telegraph>, telegraphs: seq<Telegraph>)
    ensures forall k :: k in Announced(standing, telegraphs) <==> k in standing || exists t :: t in telegraphs && t.name == k
    ensures forall k :: k in Announced(standing, telegraphs) ==>
                          var shown := Announced(standing, telegraphs)[k];
                          (shown in telegraphs && shown.name == k) || (k in standing && shown == standing[k])
  {
    if telegraphs != [] {
      var front, last := telegraphs[..|telegraphs| - 1], telegraphs[|telegraphs| - 1];
      AnnouncedHolds(standing, front);
      assert telegraphs == front + [last];
    }
  }

  /** Each actor and telegraph is filed under its own name; each telegraph has a bound source and a future. */
  predicate Sound(t: Table, tick: u64) {
    && (forall id :: id in t.actors ==> t.actors[id].entityId == id && t.actors[id].Supported())
    && (forall k :: k in t.telegraphs ==>
          && t.telegraphs[k].name == k
          && k.source in t.actors
          && t.telegraphs[k].resolves >= tick
          && t.telegraphs[k].shape.Validate())
    && (t.generation.None? ==> t == EMPTY)
  }

  lemma AdoptSound(t: Table, tick: u64, state: PresentationState, route: RouteState)
    requires Sound(t, tick) && state.Validate() && Fits(state, route)
    ensures Sound(Adopt(t, state), state.serverTick)
  {
    ByIdHolds(state.actors);
    AnnouncedHolds(Standing(t, state), state.telegraphs);
  }

  /** In every run, each standing telegraph has a bound source and has not resolved before the last accepted tick. */
  lemma {:induction false} RunSound(run: seq<Event>)
    ensures Sound(After(run).table, After(run).tick)
  {
    if run != [] {
      var (before, e) := (run[..|run| - 1], run[|run| - 1]);
      RunSound(before);
      if Accepted(e) {
        AdoptSound(After(before).table, After(before).tick, e.state, e.route);
      }
    }
  }

  /** A rejected state changes nothing, and accepting is exactly validity and fit. */
  lemma RejectionIsHarmless(t: Table, state: PresentationState, route: RouteState)
    ensures Apply(t, state, route).ok <==> Accepted(StateCall(state, route))
    ensures !Apply(t, state, route).ok ==> Apply(t, state, route).table == t
    ensures Apply(t, state, route).ok ==>
              var after := Apply(t, state, route).table;
              && after.SameContext(route.actorGeneration, route.scene, route.room)
              && after.version == state.routeStateVersion <= route.stateVersion
              && (forall actor :: actor in state.actors <==> actor.entityId in after.actors && after.actors[actor.entityId] == actor)
              && (forall shown :: shown in state.telegraphs ==> shown.name in after.telegraphs && after.telegraphs[shown.name] == shown)
  {
    if state.Validate() && Fits(state, route) {
      ByIdHolds(state.actors);
      ByIdKeepsAll(state.actors);
      AnnouncedHolds(Standing(t, state), state.telegraphs);
      forall shown | shown in state.telegraphs
        ensures shown.name in Adopt(t, state).telegraphs && Adopt(t, state).telegraphs[shown.name] == shown
      {
        AnnouncedLast(Standing(t, state), state.telegraphs, shown);
      }
    }
  }

  lemma {:induction false} AnnouncedLast(standing: map<Cast, Telegraph>, telegraphs: seq<Telegraph>, shown: Telegraph)
    requires shown in telegraphs
    requires forall k :: 0 < k < |telegraphs| ==> telegraphs[k - 1].name.Below(telegraphs[k].name)
    ensures shown.name in Announced(standing, telegraphs) && Announced(standing, telegraphs)[shown.name] == shown
  {
    var front, last := telegraphs[..|telegraphs| - 1], telegraphs[|telegraphs| - 1];
    assert telegraphs == front + [last];
    if shown != last {
      AnnouncedLast(standing, front, shown);
      var i :| 0 <= i < |front| && front[i] == shown;
      TelegraphsAreDistinct(telegraphs, i, |front|);
    }
  }

  /** Accepting a state takes exactly its own revision, generation, scene, room and no later version, all content supported. */
  lemma AcceptanceExactly(state: PresentationState, route: RouteState)
    ensures Accepted(StateCall(state, route)) <==>
              && state.Validate()
              && state.contentRevision == route.contentRevision && state.actorGeneration == route.actorGeneration
              && state.scene == route.scene && state.room == route.room && state.routeStateVersion <= route.stateVersion
              && forall actor :: actor in state.actors ==> actor.Supported()
  {
  }

  /** A route of the table's context leaves it, and any other empties it; a reset empties it. */
  lemma RouteCallExactly(t: Tracked, route: RouteState)
    ensures var after := Next(t, RouteCall(route)).table;
            if t.table.generation == Some(route.actorGeneration) && t.table.scene == Some(route.scene) && t.table.room == route.room
            then after == t.table
            else after == Table(None, None, None, 0, map[], map[])
    ensures Next(t, ResetCall).table == Table(None, None, None, 0, map[], map[])
  {
  }

  // ----- where a telegraph comes from -----

  predicate Binds(state: PresentationState, source: u64) {
    exists actor :: actor in state.actors && actor.entityId == source
  }

  predicate Announces(e: Event, shown: Telegraph) {
    Accepted(e) && shown in e.state.telegraphs
  }

  /** The table is for the generation, scene and room the state speaks of. */
  predicate SameHome(t: Table, home: PresentationState) {
    t.SameContext(home.actorGeneration, home.scene, home.room)
  }

  /**
   * A telegraph announced by `home` outlives this call: no reset, no route of another context, and an
   * accepted state is of the same context, still binds its source in time and announces no other
   * telegraph under its name.
   */
  predicate Outlives(shown: Telegraph, home: PresentationState, e: Event) {
    match e
    case ResetCall => false
    case RouteCall(route) =>
      home.actorGeneration == route.actorGeneration && home.scene == route.scene && home.room == route.room
    case StateCall(state, route) =>
      Accepted(e) ==>
        && state.actorGeneration == home.actorGeneration && state.scene == home.scene && state.room == home.room
        && shown.resolves >= state.serverTick
        && Binds(state, shown.name.source)
        && forall other :: other in state.telegraphs && other.name == shown.name ==> other == shown
  }

  /** One call: a telegraph that stands after it was announced by it, or stood before in the same context, and outlives it. */
  lemma StepProvenance(t: Tracked, e: Event, name: Cast, home: PresentationState)
    requires name in Next(t, e).table.telegraphs && SameHome(Next(t, e).table, home)
    requires Sound(t.table, t.tick)
    ensures var shown := Next(t, e).table.telegraphs[name];
            && Outlives(shown, home, e)
            && (Announces(e, shown)
                || (name in t.table.telegraphs && shown == t.table.telegraphs[name] && SameHome(t.table, home)))
  {
    if Accepted(e) {
      var shown := Next(t, e).table.telegraphs[name];
      ByIdHolds(e.state.actors);
      AnnouncedHolds(Standing(t.table, e.state), e.state.telegraphs);
      forall other | other in e.state.telegraphs && other.name == name ensures other == shown {
        AnnouncedLast(Standing(t.table, e.state), e.state.telegraphs, other);
      }
    }
  }

  /** One call, conversely: a telegraph of the table's context that outlives it still stands. */
  lemma StepStands(t: Tracked, e: Event, shown: Telegraph, home: PresentationState)
    requires SameHome(t.table, home) && shown.name in t.table.telegraphs && t.table.telegraphs[shown.name] == shown
    requires Outlives(shown, home, e)
    ensures var after := Next(t, e).table;
            SameHome(after, home) && shown.name in after.telegraphs && after.telegraphs[shown.name] == shown
  {
    if Accepted(e) {
      ByIdHolds(e.state.actors);
      AnnouncedHolds(Standing(t.table, e.state), e.state.telegraphs);
    }
  }

  /** Call `i` announced the telegraph and it has outlived every call since. */
  predicate AnnouncedAt(run: seq<Event>, i: nat, shown: Telegraph) {
    i < |run| && Announces(run[i], shown) && forall j :: i <= j < |run| ==> Outlives(shown, run[i].state, run[j])
  }

  lemma AnnouncedStill(run: seq<Event>, e: Event, i: nat, shown: Telegraph)
    requires AnnouncedAt(run, i, shown) && Outlives(shown, run[i].state, e)
    ensures AnnouncedAt(run + [e], i, shown)
  {
  }

  lemma AnnouncedNow(run: seq<Event>, e: Event, shown: Telegraph)
    requires Announces(e, shown) && Outlives(shown, e.state, e)
    ensures AnnouncedAt(run + [e], |run|, shown)
  {
  }

  /**
   * A standing telegraph was announced by one accepted state of the table's context, and every call
   * since has left it standing: no reset, no route or accepted state of another context, and every
   * accepted state bound its source, was not past its end and announced nothing else in its place.
   */
  lemma {:induction false} TelegraphProvenance(run: seq<Event>, name: Cast) returns (i: nat)
    requires name in After(run).table.telegraphs
    ensures AnnouncedAt(run, i, After(run).table.telegraphs[name])
    ensures SameHome(After(run).table, run[i].state)
  {
    var (before, e) := (run[..|run| - 1], run[|run| - 1]);
    var (t, shown) := (After(before), After(run).table.telegraphs[name]);
    assert run == before + [e];
    RunSound(before);
    if Announces(e, shown) {
      StepProvenance(t, e, name, e.state);
      AnnouncedNow(before, e, shown);
      i := |before|;
    } else {
      StoodBefore(t, e, name);
      i := TelegraphProvenance(before, name);
      StepProvenance(t, e, name, before[i].state);
      AnnouncedStill(before, e, i, shown);
    }
  }

  /** A telegraph that a call leaves standing without announcing it stood before, and the context is unchanged. */
  lemma StoodBefore(t: Tracked, e: Event, name: Cast)
    requires name in Next(t, e).table.telegraphs && !Announces(e, Next(t, e).table.telegraphs[name])
    ensures name in t.table.telegraphs && t.table.telegraphs[name] == Next(t, e).table.telegraphs[name]
    ensures forall home :: SameHome(t.table, home) ==> SameHome(Next(t, e).table, home)
  {
    if Accepted(e) {
      AnnouncedHolds(Standing(t.table, e.state), e.state.telegraphs);
    }
  }

  lemma {:induction false} AnnouncedStands(run: seq<Event>, i: nat, shown: Telegraph)
    requires AnnouncedAt(run, i, shown)
    ensures var table := After(run).table;
            SameHome(table, run[i].state) && shown.name in table.telegraphs && table.telegraphs[shown.name] == shown
  {
    var (before, e) := (run[..|run| - 1], run[|run| - 1]);
    if i == |before| {
      RejectionIsHarmless(After(before).table, e.state, e.route);
    } else {
      assert AnnouncedAt(before, i, shown);
      AnnouncedStands(before, i, shown);
      StepStands(After(before), e, shown, run[i].state);
    }
  }

  /** So a telegraph stands exactly when some call announced it and it has outlived every call since. */
  lemma StandsExactly(run: seq<Event>, shown: Telegraph)
    ensures shown.name in After(run).table.telegraphs && After(run).table.telegraphs[shown.name] == shown
            <==> exists i: nat :: AnnouncedAt(run, i, shown)
  {
    if shown.name in After(run).table.telegraphs && After(run).table.telegraphs[shown.name] == shown {
      var i := TelegraphProvenance(run, shown.name);
    }
    if i: nat :| AnnouncedAt(run, i, shown) {
      AnnouncedStands(run, i, shown);
    }
  }

  // ----- the binding on a live session -----

  lemma {:induction false} PlayersOf(entities: seq<W.Entity>)
    ensures forall e :: e in C.Players(entities) <==> e in entities && e.kind.Player?
  {
    if entities != [] {
      PlayersOf(entities[1..]);
    }
  }

  /**
   * In every run of the snapshot client behind a route model, the count that admits the latest
   * snapshot is an exact pairing, and the one bound player is then the session's own.
   */
  lemma LiveBindingIsExact(s: S.Session, run: seq<S.Event>, t: Table)
    requires s.client == C.EMPTY && RR.Authentic(s.route) && S.After(s, run).client.latest.Some?
    ensures var c := S.After(s, run).client;
            var combatants := Combatants(c.latest.value.entities);
            && (AllBound(combatants, t.actors) && |combatants| == |t.actors| <==> Paired(combatants, t.actors))
            && c.localId.Some?
            && (Paired(combatants, t.actors) ==>
                  forall id :: id in t.actors && t.actors[id].kind.PlayerActor? <==> id == c.localId.value)
  {
    S.SnapshotsFollowTheRoute(s.route, run);
    var c := S.After(s, run).client;
    var entities := c.latest.value.entities;
    CombatantsAreDistinct(entities);
    CountingIsPairing(Combatants(entities), t.actors);
    OnlyPlayerBinds(entities, c.localId.value, t.actors);
  }

  lemma OnlyPlayerBinds(entities: seq<W.Entity>, player: u64, actors: map<u64, Binding>)
    requires C.OnlyPlayerIs(entities, player)
    ensures Paired(Combatants(entities), actors) ==>
              forall id :: id in actors && actors[id].kind.PlayerActor? <==> id == player
  {
    PlayersOf(entities);
    CombatantsOf(entities);
    var only := C.Players(entities)[0];
    assert C.Players(entities) == [only] && only in C.Players(entities);
    if Paired(Combatants(entities), actors) {
      forall id | id in actors && actors[id].kind.PlayerActor? ensures id == player {
        var e :| e in Combatants(entities) && e.id == id;
        assert e in C.Players(entities);
      }
      assert only in Combatants(entities);
    }
  }
}
