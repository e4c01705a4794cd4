/**
 * The client's table of bound actors and standing telegraphs, and the check that a snapshot's
 * combatants are exactly the bound actors before any danger actor is shown.
 */
module CombatPresentation {
  import opened Basics
  import opened RouteProtocol
  import opened CombatWire
  import W = SnapshotWire

  datatype Table = Table(
    generation: Option<u64>,
    scene: Option<Scene>,
    room: Option<Room>,
    version: u64,
    actors: map<u64, Binding>,
    telegraphs: map<Cast, Telegraph>)
  {
    predicate SameContext(otherGeneration: u64, otherScene: Scene, otherRoom: Option<Room>) {
      generation == Some(otherGeneration) && scene == Some(otherScene) && room == otherRoom
    }
  }

  datatype Step = Step(table: Table, ok: bool)

  const EMPTY := Table(None, None, None, 0, map[], map[])

  /** The state belongs to the route, is not from its future, and names only supported content. */
  predicate Fits(state: PresentationState, route: RouteState) {
    && state.contentRevision == route.contentRevision
    && state.actorGeneration == route.actorGeneration
    && state.scene == route.scene
    && state.room == route.room
    && state.routeStateVersion <= route.stateVersion
    && forall actor :: actor in state.actors ==> actor.Supported()
  }

  /** The actors by identity; a later entry replaces an earlier one. */
  function ById(actors: seq<Binding>): map<u64, Binding> {
    if actors == [] then map[] else ById(actors[..|actors| - 1])[actors[|actors| - 1].entityId := actors[|actors| - 1]]
  }

  /** The standing telegraphs with the announced ones filed over them. */
  function Announced(standing: map<Cast, Telegraph>, telegraphs: seq<Telegraph>): map<Cast, Telegraph> {
    if telegraphs == [] then standing
    else Announced(standing, telegraphs[..|telegraphs| - 1])[telegraphs[|telegraphs| - 1].name := telegraphs[|telegraphs| - 1]]
  }

  function Unresolved(telegraphs: map<Cast, Telegraph>, tick: u64, actors: map<u64, Binding>): map<Cast, Telegraph> {
    map k | k in telegraphs && telegraphs[k].resolves >= tick && telegraphs[k].name.source in actors :: telegraphs[k]
  }

  function Standing(t: Table, state: PresentationState): map<Cast, Telegraph> {
    if t.SameContext(state.actorGeneration, state.scene, state.room) then t.telegraphs else map[]
  }

  function Adopt(t: Table, state: PresentationState): Table {
    var actors := ById(state.actors);
    Table(Some(state.actorGeneration), Some(state.scene), state.room, state.routeStateVersion, actors,
          Unresolved(Announced(Standing(t, state), state.telegraphs), state.serverTick, actors))
  }

  function Apply(t: Table, state: PresentationState, route: RouteState): Step {
    if state.Validate() && Fits(state, route) then Step(Adopt(t, state), true) else Step(t, false)
  }

  function RetainForRoute(t: Table, route: RouteState): Table {
    if t.SameContext(route.actorGeneration, route.scene, route.room) then t else EMPTY
  }

  // ----- binding a snapshot -----

  predicate Combatant(entity: W.Entity) {
    entity.kind.Player? || entity.kind.Enemy? || entity.kind.Boss?
  }

  function Combatants(entities: seq<W.Entity>): seq<W.Entity> {
    if entities == [] then []
    else Combatants(entities[..|entities| - 1]) + if Combatant(entities[|entities| - 1]) then [entities[|entities| - 1]] else []
  }

  predicate SameKind(kind: W.EntityKind, bound: ActorKind) {
    || (kind.Player? && bound.PlayerActor?)
    || (kind.Enemy? && bound.EnemyActor?)
    || (kind.Boss? && bound.BossActor?)
  }

  predicate Gates(t: Table, snapshotVersion: u64, route: RouteState) {
    t.SameContext(route.actorGeneration, route.scene, route.room) && t.version <= snapshotVersion
  }

  predicate AllBound(combatants: seq<W.Entity>, actors: map<u64, Binding>) {
    forall e :: e in combatants ==> e.id in actors && SameKind(e.kind, actors[e.id].kind)
  }

  /** Every bound actor is one of the combatants and every combatant is bound under its own kind. */
  predicate Paired(combatants: seq<W.Entity>, actors: map<u64, Binding>) {
    && AllBound(combatants, actors)
    && forall id :: id in actors ==> exists e :: e in combatants && e.id == id
  }

  lemma {:induction false} CombatantsOf(entities: seq<W.Entity>)
    ensures forall e :: e in Combatants(entities) <==> e in entities && Combatant(e)
  {
    if entities != [] {
      var front, last := entities[..|entities| - 1], entities[|entities| - 1];
      CombatantsOf(front);
      assert entities == front + [last];
    }
  }

  lemma {:induction false} CombatantsAreDistinct(entities: seq<W.Entity>)
    requires W.DistinctIds(entities)
    ensures W.DistinctIds(Combatants(entities))
  {
    if entities != [] {
      var front, last := entities[..|entities| - 1], entities[|entities| - 1];
      CombatantsAreDistinct(front);
      CombatantsOf(front);
      forall i | 0 <= i < |Combatants(front)| ensures Combatants(front)[i].id != last.id {
        assert Combatants(front)[i] in front;
      }
    }
  }

  /** Every player, enemy and boss of the entities is bound under its own kind. */
  predicate BoundByKind(entities: seq<W.Entity>, actors: map<u64, Binding>) {
    && (forall e :: e in entities && e.kind == W.Player ==> e.id in actors && actors[e.id].kind == PlayerActor)
    && (forall e :: e in entities && e.kind == W.Enemy ==> e.id in actors && actors[e.id].kind == EnemyActor)
    && (forall e :: e in entities && e.kind == W.Boss ==> e.id in actors && actors[e.id].kind == BossActor)
  }

  /** Every bound actor is a player, an enemy or a boss of the entities. */
  predicate Seen(entities: seq<W.Entity>, actors: map<u64, Binding>) {
    forall id :: id in actors ==>
      exists e :: e in entities && e.id == id && (e.kind == W.Player || e.kind == W.Enemy || e.kind == W.Boss)
  }

  lemma BoundIsByKind(entities: seq<W.Entity>, actors: map<u64, Binding>)
    ensures AllBound(Combatants(entities), actors) <==> BoundByKind(entities, actors)
  {
    CombatantsOf(entities);
    if BoundByKind(entities, actors) {
      forall e | e in Combatants(entities) ensures e.id in actors && SameKind(e.kind, actors[e.id].kind) {
        assert e in entities;
      }
    }
  }

  lemma OntoIsSeen(entities: seq<W.Entity>, actors: map<u64, Binding>)
    ensures (forall id :: id in actors ==> exists e :: e in Combatants(entities) && e.id == id) <==> Seen(entities, actors)
  {
    CombatantsOf(entities);
    if Seen(entities, actors) {
      forall id | id in actors ensures exists e :: e in Combatants(entities) && e.id == id {
        var e :| e in entities && e.id == id && (e.kind == W.Player || e.kind == W.Enemy || e.kind == W.Boss);
        assert e in Combatants(entities);
      }
    }
  }

  /** With distinct identities, the loop's test is that the combatants and the bound actors are the same, kind by kind. */
  lemma PairedIsShown(entities: seq<W.Entity>, actors: map<u64, Binding>)
    requires W.DistinctIds(entities)
    ensures AllBound(Combatants(entities), actors) && |Combatants(entities)| == |actors| <==> Paired(Combatants(entities), actors)
    ensures Paired(Combatants(entities), actors) <==> BoundByKind(entities, actors) && Seen(entities, actors)
  {
    BoundIsByKind(entities, actors);
    OntoIsSeen(entities, actors);
    CombatantsAreDistinct(entities);
    CountingIsPairing(Combatants(entities), actors);
  }

  lemma {:induction false} IdsOf(entities: seq<W.Entity>) returns (ids: set<u64>)
    requires W.DistinctIds(entities)
    ensures |ids| == |entities|
    ensures forall id :: id in ids <==> exists e :: e in entities && e.id == id
  {
    ids := {};
    if entities != [] {
      var front, last := entities[..|entities| - 1], entities[|entities| - 1];
      var others := IdsOf(front);
      ids := others + {last.id};
      assert entities == front + [last];
    }
  }

  /** With distinct identities, counting is enough: the pairing is one to one and onto. */
  lemma CountingIsPairing(combatants: seq<W.Entity>, actors: map<u64, Binding>)
    requires W.DistinctIds(combatants)
    ensures AllBound(combatants, actors) && |combatants| == |actors| <==> Paired(combatants, actors)
  {
    if AllBound(combatants, actors) {
      var ids := IdsOf(combatants);
      assert ids <= actors.Keys && |actors| == |actors.Keys|;
      W.SubsetSize(ids, actors.Keys);
      if |combatants| == |actors| {
        assert ids == actors.Keys;
      }
      if Paired(combatants, actors) {
        assert actors.Keys <= ids;
        assert ids == actors.Keys;
      }
    }
  }

  lemma BothCombatants(e: W.Entity)
    requires Combatant(e)
    ensures Combatants([e, e]) == [e, e]
  {
    assert [e, e][..1] == [e] && Combatants([e]) == Combatants([]) + [e];
  }

  /**
   * The distinct identities a complete snapshot has are needed: one bound enemy seen twice passes
   * the count against two bound actors although the other is never seen.
   */
  lemma RepeatedIdentityDefeatsTheCount(e: W.Entity, actors: map<u64, Binding>, unseen: u64)
    requires Combatant(e) && e.id in actors && SameKind(e.kind, actors[e.id].kind)
    requires actors.Keys == {e.id, unseen} && unseen != e.id
    ensures AllBound(Combatants([e, e]), actors) && |Combatants([e, e])| == |actors|
    ensures !Paired(Combatants([e, e]), actors)
  {
    BothCombatants(e);
    assert |actors| == |actors.Keys|;
    assert unseen in actors;
  }

  class CorePrivateCombatPresentation {
    var generation: Option<u64>
    var scene: Option<Scene>
    var room: Option<Room>
    var version: u64
    var actors: map<u64, Binding>
    var telegraphs: map<Cast, Telegraph>

    function View(): Table
      reads this
    {
      Table(generation, scene, room, version, actors, telegraphs)
    }

    constructor ()
      ensures View() == EMPTY
    {
      generation, scene, room, version, actors, telegraphs := None, None, None, 0, map[], map[];
    }

    method Reset()
      modifies this
      ensures View() == EMPTY
    {
      generation, scene, room, version, actors, telegraphs := None, None, None, 0, map[], map[];
    }

    method ApplyState(state: PresentationState, route: RouteState) returns (ok: bool)
      modifies this
      ensures Step(View(), ok) == Apply(old(View()), state, route)
    {
      if !state.Validate() { return false; }
      if !Fits(state, route) { return false; }
      if generation != Some(state.actorGeneration) || scene != Some(state.scene) || room != state.room {
        telegraphs := map[];
      }
      generation := Some(state.actorGeneration);
      scene := Some(state.scene);
      room := state.room;
      version := state.routeStateVersion;
      BindActors(state.actors);
      Announce(state.telegraphs);
      telegraphs := map k | k in telegraphs && telegraphs[k].resolves >= state.serverTick && telegraphs[k].name.source in actors
        :: telegraphs[k];
      return true;
    }

    method BindActors(bindings: seq<Binding>)
      modifies this`actors
      ensures actors == ById(bindings)
    {
      actors := map[];
      for i := 0 to |bindings|
        invariant actors == ById(bindings[..i])
      {
        assert bindings[..i + 1][..i] == bindings[..i];
        actors := actors[bindings[i].entityId := bindings[i]];
      }
      assert bindings[..|bindings|] == bindings;
    }

    method Announce(announced: seq<Telegraph>)
      modifies this`telegraphs
      ensures telegraphs == Announced(old(telegraphs), announced)
    {
      for i := 0 to |announced|
        invariant telegraphs == Announced(old(telegraphs), announced[..i])
      {
        assert announced[..i + 1][..i] == announced[..i];
        telegraphs := telegraphs[announced[i].name := announced[i]];
      }
      assert announced[..|announced|] == announced;
    }

    method Retain(route: RouteState)
      modifies this
      ensures View() == RetainForRoute(old(View()), route)
    {
      if generation != Some(route.actorGeneration) || scene != Some(route.scene) || room != route.room {
        Reset();
      }
    }

    /** The binding table, if the snapshot's combatants match it one by one and in number. */
    method BindingForSnapshot(snapshot: W.Snapshot, route: RouteState) returns (binding: Option<map<u64, Binding>>)
      ensures binding.Some? <==> Gates(View(), snapshot.stateVersion, route)
                                 && AllBound(Combatants(snapshot.entities), actors)
                                 && |Combatants(snapshot.entities)| == |actors|
      ensures W.DistinctIds(snapshot.entities) ==>
                (binding.Some? <==> Gates(View(), snapshot.stateVersion, route) && Paired(Combatants(snapshot.entities), actors))
      ensures binding.Some? ==> binding.value == actors
      ensures W.DistinctIds(snapshot.entities) ==>
                (binding.Some? <==>
                  && generation == Some(route.actorGeneration) && scene == Some(route.scene) && room == route.room
                  && version <= snapshot.stateVersion
                  && BoundByKind(snapshot.entities, actors) && Seen(snapshot.entities, actors))
    {
      var entities := snapshot.entities;
      CombatantsOf(entities);
      if W.DistinctIds(entities) {
        PairedIsShown(entities, actors);
      }
      if !Gates(View(), snapshot.stateVersion, route) { return None; }
      var count := 0;
      for i := 0 to |entities|
        invariant count == |Combatants(entities[..i])| && AllBound(Combatants(entities[..i]), actors)
      {
        assert entities[..i + 1][..i] == entities[..i];
        if Combatant(entities[i]) {
          count := count + 1;
          if entities[i].id !in actors || !SameKind(entities[i].kind, actors[entities[i].id].kind) {
            assert entities[i] in Combatants(entities);
            return None;
          }
        }
      }
      assert entities[..|entities|] == entities;
      if count == |actors| { return Some(actors); }
      return None;
    }
  }
}
