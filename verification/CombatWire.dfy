/** Combat presentation on the wire: actor bindings, telegraphs and their validity. */
module CombatWire {
  import opened Basics
  import opened RouteProtocol

  const CORE_COMBAT_PRESENTATION_SCHEMA_VERSION: u16 := 1
  const CORE_COMBAT_PRESENTATION_MAX_ACTORS: nat := 64
  const CORE_COMBAT_PRESENTATION_MAX_TELEGRAPHS: nat := 32

  datatype ActorKind = PlayerActor | EnemyActor | BossActor

  datatype ActorContent =
    | GraveArbalist
    | DrownedPilgrim | BellReed | ChainSentry | MireLeech | BellAcolyte | ChoirSkull | SepulcherKnight
    | SirCaldus
    | OtherContent(text: nat)

  datatype Binding = Binding(entityId: u64, kind: ActorKind, content: ActorContent) {
    predicate Supported() {
      match kind
      case PlayerActor => content.GraveArbalist?
      case EnemyActor => !content.GraveArbalist? && !content.SirCaldus? && !content.OtherContent?
      case BossActor => content.SirCaldus?
    }
  }

  type RayOffsets = s: seq<i32> | |s| == 8 witness [0, 0, 0, 0, 0, 0, 0, 0]

  datatype Shape =
    | Fan(rayCount: u8, offsets: RayOffsets, extent: u32, rayWidth: u16)
    | AimedLane(extent: u32, width: u16)
    | Ring(segmentCount: u8, gapStart: u8, gapCount: u8, radius: u16, segmentWidth: u16)
    | Lanes(firstAxis: u16, secondAxis: u16, width: u16)
    | Rotor(armCount: u8, clockwise: u32, extent: u32, armWidth: u16)
  {
    predicate Validate() {
      match this
      case Fan(rayCount, offsets, extent, rayWidth) =>
        && 1 <= rayCount <= 8
        && (forall i :: 0 <= i < rayCount ==> -180_000 <= offsets[i] <= 180_000)
        && (forall i :: 0 < i < rayCount ==> offsets[i - 1] < offsets[i])
        && (forall i :: rayCount <= i < 8 ==> offsets[i] == 0)
        && ValidExtent(extent) && ValidWidth(rayWidth)
      case AimedLane(extent, width) => ValidExtent(extent) && ValidWidth(width)
      case Ring(segmentCount, gapStart, gapCount, radius, segmentWidth) =>
        && 4 <= segmentCount <= 24
        && 0 < gapCount < segmentCount && gapStart < segmentCount
        && 500 <= radius <= 8_000 && ValidWidth(segmentWidth)
      case Lanes(firstAxis, secondAxis, width) =>
        firstAxis < 360 && secondAxis < 360 && firstAxis != secondAxis && ValidWidth(width)
      case Rotor(armCount, clockwise, extent, armWidth) =>
        1 <= armCount <= 4 && 1 <= clockwise <= 180_000 && ValidExtent(extent) && ValidWidth(armWidth)
    }
  }

  predicate ValidExtent(extent: u32) { 500 <= extent <= 30_000 }

  predicate ValidWidth(width: u16) { 80 <= width <= 3_000 }

  /** One cast of one source, the name a telegraph is filed under. */
  datatype Cast = Cast(source: u64, cast: u64) {
    predicate Below(other: Cast) {
      source < other.source || (source == other.source && cast < other.cast)
    }
  }

  datatype DamageType = Physical | Veil

  datatype Telegraph = Telegraph(
    name: Cast,
    pattern: nat,
    damage: DamageType,
    starts: u64,
    resolves: u64,
    originX: i32,
    originY: i32,
    targetX: i32,
    targetY: i32,
    shape: Shape)

  /** The complete binding set of one server tick and the telegraphs that began on it. */
  datatype PresentationState = PresentationState(
    schemaVersion: u16,
    contentRevision: Revision,
    actorGeneration: u64,
    routeStateVersion: u64,
    scene: Scene,
    room: Option<Room>,
    serverTick: u64,
    actors: seq<Binding>,
    telegraphs: seq<Telegraph>)
  {
    predicate ContextShape() {
      && schemaVersion == CORE_COMBAT_PRESENTATION_SCHEMA_VERSION
      && actorGeneration != 0
      && routeStateVersion != 0
      && !scene.LanternHalls? && (scene.BellSepulcher? <==> room.Some?)
    }

    predicate ValidActors() {
      && 0 < |actors| <= CORE_COMBAT_PRESENTATION_MAX_ACTORS
      && (forall i :: 0 <= i < |actors| ==> actors[i].entityId != 0)
      && (forall i :: 0 < i < |actors| ==> actors[i - 1].entityId < actors[i].entityId)
      && PlayerCount(actors) == 1
    }

    predicate ValidTelegraph(telegraph: Telegraph) {
      && telegraph.name.source != 0 && telegraph.name.cast != 0
      && telegraph.starts == serverTick
      && telegraph.resolves > telegraph.starts
      && (exists actor :: actor in actors && actor.entityId == telegraph.name.source)
      && telegraph.shape.Validate()
    }

    predicate ValidTelegraphs() {
      && |telegraphs| <= CORE_COMBAT_PRESENTATION_MAX_TELEGRAPHS
      && (forall telegraph :: telegraph in telegraphs ==> ValidTelegraph(telegraph))
      && (forall i :: 0 < i < |telegraphs| ==> telegraphs[i - 1].name.Below(telegraphs[i].name))
    }

    predicate Validate() {
      ContextShape() && ValidActors() && ValidTelegraphs()
    }
  }

  function PlayerCount(actors: seq<Binding>): nat {
    if actors == [] then 0
    else (if actors[0].kind.PlayerActor? then 1 else 0) + PlayerCount(actors[1..])
  }

  lemma {:induction false} CountZero(actors: seq<Binding>)
    ensures PlayerCount(actors) == 0 <==> forall actor :: actor in actors ==> !actor.kind.PlayerActor?
  {
    if actors != [] {
      CountZero(actors[1..]);
      assert actors == [actors[0]] + actors[1..];
    }
  }

  /** A valid binding set has a player, and only one. */
  lemma {:induction false} OnePlayer(actors: seq<Binding>)
    ensures PlayerCount(actors) == 1 <==>
              exists i :: 0 <= i < |actors| && actors[i].kind.PlayerActor?
                          && forall j :: 0 <= j < |actors| && actors[j].kind.PlayerActor? ==> j == i
  {
    if actors != [] {
      var rest := actors[1..];
      CountZero(rest);
      OnePlayer(rest);
      assert forall i :: 0 <= i < |rest| ==> rest[i] == actors[i + 1];
      if actors[0].kind.PlayerActor? {
        assert PlayerCount(rest) == 0 ==> forall j :: 0 <= j < |actors| && actors[j].kind.PlayerActor? ==> j == 0;
      }
    }
  }

  /** The one player of a valid state, and no two fan rays of one angle. */
  lemma ValidStateHasOnePlayer(state: PresentationState)
    requires state.Validate()
    ensures exists i :: 0 <= i < |state.actors| && state.actors[i].kind.PlayerActor?
                        && forall j :: 0 <= j < |state.actors| && state.actors[j].kind.PlayerActor? ==> j == i
  {
    OnePlayer(state.actors);
  }

  /** Content decides the kind: the one class, the one boss, and the listed enemies. */
  lemma SupportedContent(binding: Binding)
    ensures binding.Supported() <==>
              && (binding.kind == PlayerActor <==> binding.content == GraveArbalist)
              && (binding.kind == BossActor <==> binding.content == SirCaldus)
              && !binding.content.OtherContent?
  {
  }

  /** The rays of a valid fan ascend, so no two share an angle. */
  lemma {:induction false} RaysAscend(shape: Shape, i: nat, j: nat)
    requires shape.Fan? && shape.Validate() && i < j < shape.rayCount
    ensures shape.offsets[i] < shape.offsets[j]
    decreases j
  {
    if i < j - 1 {
      RaysAscend(shape, i, j - 1);
    }
  }

  /** Neighbours ascend, so identities never repeat. */
  lemma {:induction false} ActorsAreDistinct(actors: seq<Binding>, i: nat, j: nat)
    requires forall k :: 0 < k < |actors| ==> actors[k - 1].entityId < actors[k].entityId
    requires i < j < |actors|
    ensures actors[i].entityId < actors[j].entityId
  {
    if i < j - 1 {
      ActorsAreDistinct(actors, i, j - 1);
    }
  }

  lemma {:induction false} TelegraphsAreDistinct(telegraphs: seq<Telegraph>, i: nat, j: nat)
    requires forall k :: 0 < k < |telegraphs| ==> telegraphs[k - 1].name.Below(telegraphs[k].name)
    requires i < j < |telegraphs|
    ensures telegraphs[i].name.Below(telegraphs[j].name)
  {
    if i < j - 1 {
      TelegraphsAreDistinct(telegraphs, i, j - 1);
    }
  }
}
