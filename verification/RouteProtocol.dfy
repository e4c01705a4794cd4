/** Wire values of the private-life route and their own validity rules. */
module RouteProtocol {
  import opened Basics

  const PROTOCOL_MAJOR: u16 := 1
  const PROTOCOL_MINOR: u16 := 25
  const CORE_PRIVATE_ROUTE_PROTOCOL_MINOR: u16 := 18
  const CORE_WORLD_FLOW_FEATURE_FLAG := "core_world_flow_integration"
  const CORE_PRIVATE_ROUTE_SCHEMA_VERSION: u16 := 1
  const SIMULATION_HZ: u16 := 30
  const SNAPSHOT_HZ: u16 := 15
  const MAX_FEATURE_FLAGS: nat := 64

  /** Three manifest hashes that identify one compiled content set. */
  datatype Revision = Revision(records: Hash, assets: Hash, localization: Hash) {
    predicate Validate() {
      records != 0 && assets != 0 && localization != 0
    }
  }

  /**
   * A content identifier. The models only compare identifiers and ask whether they are well formed,
   * so one is either a compiled scene identifier or some other text with its own verdict.
   */
  datatype ContentId =
    | HubLanternHalls01 // "hub.lantern_halls_01"
    | WorldCoreMicrorealm01 // "world.core_microrealm_01"
    | DungeonBellSepulcher // "dungeon.bell_sepulcher"
    | OtherId(text: nat, stable: bool)
  {
    predicate Stable() {
      OtherId? ==> stable
    }
  }

  datatype Scene = LanternHalls | CoreMicrorealm | BellSepulcher {
    function LocationId(): ContentId {
      match this
      case LanternHalls => HubLanternHalls01
      case CoreMicrorealm => WorldCoreMicrorealm01
      case BellSepulcher => DungeonBellSepulcher
    }
  }

  datatype Room =
    | BellVestibuleB0
    | BellCrossB1
    | BellNaveB2
    | BellKnightB3
    | BellRestB4
    | BellBridgeB5
    | CaldusArenaB6

  datatype RoutePhase =
    | Hall
    | MicrorealmDormant | MicrorealmWaiting | MicrorealmActive | MicrorealmCleared
    | DungeonVestibule
    | RoomDormant | RoomAwaitingDoorSafety | RoomSpawnWarning | RoomActive | RoomQuiet | RoomCleared
    | Rest
    | BossStaging | BossReadyCountdown | BossIntroduction | BossPhaseOne | BossBreakToTwo
    | BossPhaseTwo | BossBreakToThree | BossPhaseThree | BossDefeated | BossExitReady
    | RouteTerminalPending
  {
    predicate IsMicrorealm() {
      MicrorealmDormant? || MicrorealmWaiting? || MicrorealmActive? || MicrorealmCleared?
    }

    predicate IsRoom() {
      RoomDormant? || RoomAwaitingDoorSafety? || RoomSpawnWarning? || RoomActive? || RoomQuiet? || RoomCleared?
    }

    predicate IsBoss() {
      BossStaging? || BossReadyCountdown? || BossEncounterReady()
    }

    predicate BossEncounterReady() {
      BossIntroduction? || BossPhaseOne? || BossBreakToTwo? || BossPhaseTwo? || BossBreakToThree?
      || BossPhaseThree? || BossDefeated? || BossExitReady?
    }
  }

  /** Interaction readiness; each flag is `Available` when true. */
  datatype Readiness = Readiness(
    acceptsGameplayInput: bool,
    microrealmCleared: bool,
    bellPortalAvailable: bool,
    roomExitAvailable: bool,
    bossEncounterReady: bool,
    extractionAvailable: bool)

  function CanonicalReadiness(phase: RoutePhase): Readiness {
    Readiness(
      !phase.RouteTerminalPending?,
      phase.MicrorealmCleared?,
      phase.MicrorealmCleared?,
      phase.DungeonVestibule? || phase.RoomCleared? || phase.Rest?,
      phase.BossEncounterReady(),
      phase.BossExitReady?)
  }

  datatype RouteState = RouteState(
    schemaVersion: u16,
    characterId: Id,
    characterVersion: u64,
    contentRevision: Revision,
    actorGeneration: u64,
    stateVersion: u64,
    lineage: Option<Id>,
    scene: Scene,
    room: Option<Room>,
    phase: RoutePhase,
    readiness: Readiness)
  {
    predicate SceneShape() {
      match scene
      case LanternHalls => lineage.None? && room.None? && phase.Hall?
      case CoreMicrorealm =>
        lineage.Some? && room.None? && (phase.IsMicrorealm() || phase.RouteTerminalPending?)
      case BellSepulcher =>
        lineage.Some? && room.Some?
        && (phase.RouteTerminalPending?
            || match room.value
               case BellVestibuleB0 => phase.DungeonVestibule?
               case BellRestB4 => phase.Rest?
               case CaldusArenaB6 => phase.IsBoss()
               case _ => phase.IsRoom())
    }

    predicate Validate() {
      && schemaVersion == CORE_PRIVATE_ROUTE_SCHEMA_VERSION
      && characterId != 0
      && characterVersion != 0
      && actorGeneration != 0
      && stateVersion != 0
      && lineage != Some(0)
      && contentRevision.Validate()
      && SceneShape()
      && readiness == CanonicalReadiness(phase)
    }
  }

  /** What a valid projection offers fits where it is: each interaction only at its own place, and none past the end. */
  lemma OffersFitTheScene(state: RouteState)
    requires state.Validate()
    ensures var offers := state.readiness;
            && (offers.acceptsGameplayInput <==> state.phase != RouteTerminalPending)
            && (offers.bellPortalAvailable <==> offers.microrealmCleared)
            && (offers.bellPortalAvailable ==> state.scene == CoreMicrorealm)
            && (offers.roomExitAvailable ==> state.scene == BellSepulcher && state.room != Some(CaldusArenaB6))
            && (offers.bossEncounterReady ==> state.scene == BellSepulcher && state.room == Some(CaldusArenaB6))
            && (offers.extractionAvailable ==> offers.bossEncounterReady && state.phase == BossExitReady)
            && (state.phase == MicrorealmCleared ==> offers.bellPortalAvailable)
            && (state.phase == RoomCleared || state.phase == Rest ==> offers.roomExitAvailable)
            && (state.phase == BossExitReady ==> offers.extractionAvailable)
  {
  }

  datatype SafeArrival = HallDefault | SpawnAnchor(spawnId: ContentId) {
    predicate Validate() {
      SpawnAnchor? ==> spawnId.Stable()
    }
  }

  datatype CharacterLocation =
    | CharacterSelect(nextHallArrival: SafeArrival)
    | Safe(locationId: ContentId, arrival: SafeArrival)
    | Danger(locationId: ContentId, lineage: Id, entryRestorePointId: Id)

  /** The durable location the server reports for one character. */
  datatype LocationSnapshot = LocationSnapshot(characterId: Id, characterVersion: u64, location: CharacterLocation) {
    predicate Validate() {
      && characterId != 0
      && characterVersion != 0
      && match location
         case CharacterSelect(arrival) => arrival.Validate()
         case Safe(id, arrival) => id.Stable() && arrival.Validate()
         case Danger(id, lineage, entry) => id.Stable() && lineage != 0 && entry != 0
    }
  }

  predicate Distinct(flags: seq<string>) {
    flags == [] || (flags[0] !in flags[1..] && Distinct(flags[1..]))
  }

  datatype ServerHello = ServerHello(
    protocolMajor: u16,
    protocolMinor: u16,
    serverTickRate: u16,
    snapshotRate: u16,
    featureFlags: seq<string>)
  {
    predicate Validate() {
      && serverTickRate == SIMULATION_HZ
      && snapshotRate == SNAPSHOT_HZ
      && |featureFlags| <= MAX_FEATURE_FLAGS
      && Distinct(featureFlags)
    }

    predicate RouteCompatible() {
      Validate()
      && protocolMajor == PROTOCOL_MAJOR
      && CORE_PRIVATE_ROUTE_PROTOCOL_MINOR <= protocolMinor <= PROTOCOL_MINOR
    }
  }

  lemma {:induction false} DistinctPairwise(flags: seq<string>)
    ensures Distinct(flags) <==> forall i, j :: 0 <= i < j < |flags| ==> flags[i] != flags[j]
  {
    if flags != [] {
      DistinctPairwise(flags[1..]);
      assert forall i, j :: 0 < i < j < |flags| ==> flags[i] == flags[1..][i - 1] && flags[j] == flags[1..][j - 1];
    }
  }

  /** The handshakes taken: major version 1, minor 18 to 25, rates 30 and 15, and at most 64 different flags. */
  lemma CompatibleExactly(hello: ServerHello)
    ensures hello.RouteCompatible() <==>
              && hello.protocolMajor == 1 && 18 <= hello.protocolMinor <= 25
              && hello.serverTickRate == 30 && hello.snapshotRate == 15
              && |hello.featureFlags| <= 64
              && forall i, j :: 0 <= i < j < |hello.featureFlags| ==> hello.featureFlags[i] != hello.featureFlags[j]
  {
    DistinctPairwise(hello.featureFlags);
  }

  /** A reliable event: the route projection, or any other event with its own validation verdict. */
  datatype ReliableEvent = RouteStateEvent(state: RouteState) | OtherEvent(wellFormed: bool)

  datatype ReliableFrame = ReliableFrame(sequence: u32, event: ReliableEvent) {
    predicate Validate() {
      sequence != 0 && match event
                       case RouteStateEvent(state) => state.Validate()
                       case OtherEvent(wellFormed) => wellFormed
    }
  }

  /** Exact local readiness of one compiled scene. */
  datatype SceneReadiness = SceneReadiness(
    locationId: ContentId,
    characterVersion: u64,
    worldRevision: Revision,
    scene: Scene,
    room: Option<Room>,
    lineage: Option<Id>,
    actorGeneration: u64,
    stateVersion: u64)
  {
    predicate Validate() {
      && actorGeneration != 0
      && stateVersion != 0
      && characterVersion != 0
      && locationId == scene.LocationId()
      && lineage != Some(0)
      && match scene
         case LanternHalls => room.None? && lineage.None?
         case CoreMicrorealm => room.None? && lineage.Some?
         case BellSepulcher => room.Some? && lineage.Some?
    }
  }

  /** Does the durable location describe the place the route projection is at? */
  predicate LocationMatchesState(location: LocationSnapshot, state: RouteState) {
    && location.characterId == state.characterId
    && match location.location
       case CharacterSelect(_) => false
       case Safe(id, _) => state.scene.LanternHalls? && id == state.scene.LocationId() && state.lineage.None?
       case Danger(id, lineage, _) =>
         !state.scene.LanternHalls? && id == state.scene.LocationId() && state.lineage == Some(lineage)
  }

  /** Was the local scene compiled for exactly this projection? */
  predicate ReadinessMatchesState(readiness: SceneReadiness, state: RouteState) {
    && readiness.locationId == state.scene.LocationId()
    && readiness.characterVersion == state.characterVersion
    && readiness.scene == state.scene
    && readiness.room == state.room
    && readiness.lineage == state.lineage
    && readiness.actorGeneration == state.actorGeneration
    && readiness.stateVersion == state.stateVersion
  }
}
