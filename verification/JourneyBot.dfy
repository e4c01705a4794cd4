/** The snapshot-driven bot: what it observes, the inputs it sends and its pickup mutation protocol. */
module JourneyBot {
  import opened Basics
  import opened SnapshotWire
  import A = BotAssembler
  import opened BotObservation

  const PICKUP_DISTANCE := 1100

  datatype Behavior = FightAndCollect | AwaitAuthoritativeDeath

  datatype Outcome = Active | Recalled | Dead

  datatype Destination = CombatInstance | LanternHalls | DeathFinal | Closed

  datatype ControlCode = Joined | Reattached | OtherCode

  type MutationId = seq<u8>

  datatype Error =
    | Assembly(cause: A.AssemblyError)
    | ControlledEntityMissing
    | PlayerSnapshotCardinality
    | SequenceExhausted
    | TerminalJourney
    | UnexpectedMutationResult
    | MutationRejected
    | ControlRejected
    | ClosedDestination

  datatype InputFrame = InputFrame(
    sequence: u32, clientTick: u64, movement: (int, int), aim: (int, int), heldPrimary: bool, primarySequence: u32)

  datatype Reply =
    | Err(error: Error)
    | Nothing
    | Observed(observation: Observation)
    | Input(frame: InputFrame)
    | Request(mutationId: MutationId, pickup: u64)

  datatype MutationResult = MutationResult(mutationId: MutationId, accepted: bool, acceptedCode: bool)

  datatype ControlResult = ControlResult(
    accepted: bool, code: ControlCode, session: nat, controlled: Option<u64>, destination: Destination)

  /** What the bot knows: the assembler, the latest observation, its session and its outcome. */
  datatype Senses = Senses(
    assembler: A.Assembler,
    observation: Option<Observation>,
    firstPosition: Option<(i32, i32)>,
    session: Option<nat>,
    controlled: Option<u64>,
    terminal: Outcome)

  /** What the bot does: its aim and the sequences of the inputs it has sent. */
  datatype Hands = Hands(lastAim: (int, int), inputSequence: u32, primarySequence: u32, inputsSent: u64)

  /** The pickup mutation protocol. */
  datatype Pickups = Pickups(
    mutationSequence: u64,
    pendingMutation: Option<MutationId>,
    pendingPickup: Option<u64>,
    resolved: set<u64>,
    mutationsAccepted: u64)

  datatype Evidence = Evidence(
    completedSnapshots: u64,
    reconnectsAccepted: u64,
    sawEnemyDamage: bool,
    sawFriendlyProjectile: bool,
    movedFromFirstPosition: bool)

  datatype Bot = Bot(behavior: Behavior, senses: Senses, hands: Hands, pickups: Pickups, evidence: Evidence)

  datatype Step = Step(bot: Bot, reply: Reply)

  function Saturating(x: u64): u64 {
    if x == U64_MAX then x else x + 1
  }

  function Start(behavior: Behavior): Bot {
    Bot(behavior,
        Senses(A.Assembler(0, None), None, None, None, None, Active),
        Hands((FIXED_SCALE, 0), 0, 0, 0),
        Pickups(0, None, None, {}, 0),
        Evidence(0, 0, false, false, false))
  }

  // ----- snapshots -----

  function OutcomeOf(player: Entity): Outcome {
    if player.Alive() then Active else if player.currentHealth == 0 then Dead else Recalled
  }

  function Witness(evidence: Evidence, first: Option<(i32, i32)>, observation: Observation, friendly: bool): Evidence {
    evidence.(
      completedSnapshots := Saturating(evidence.completedSnapshots),
      movedFromFirstPosition := evidence.movedFromFirstPosition
        || (first.Some? && first.value != (observation.player.x, observation.player.y)),
      sawEnemyDamage := evidence.sawEnemyDamage
        || (observation.nearestEnemy.Some?
            && 0 < observation.nearestEnemy.value.currentHealth < observation.nearestEnemy.value.maximumHealth),
      sawFriendlyProjectile := evidence.sawFriendlyProjectile || friendly)
  }

  predicate SeesFriendly(entities: seq<Entity>, controlled: Option<u64>) {
    exists i :: 0 <= i < |entities|
      && entities[i].kind.FriendlyProjectile? && controlled == Some(entities[i].sourceEntityId)
  }

  function Watch(senses: Senses, observation: Observation): Senses {
    senses.(
      firstPosition := if senses.firstPosition.None? then Some((observation.player.x, observation.player.y))
                       else senses.firstPosition,
      terminal := OutcomeOf(observation.player),
      observation := Some(observation))
  }

  function IngestSnapshot(b: Bot, chunk: Chunk): Step {
    var step := A.Ingest(b.senses.assembler, chunk);
    var fed := b.senses.(assembler := step.assembler);
    match step.reply
    case Quiet => Step(b.(senses := fed), Nothing)
    case Refused(cause) => Step(b.(senses := fed), Err(Assembly(cause)))
    case Complete(snapshot) =>
      if fed.controlled.None? then Step(b.(senses := fed), Err(ControlledEntityMissing))
      else
        match Observe(snapshot, fed.controlled.value)
        case None => Step(b.(senses := fed), Err(PlayerSnapshotCardinality))
        case Some(observation) =>
          var evidence := Witness(b.evidence, fed.firstPosition, observation, SeesFriendly(snapshot.entities, fed.controlled));
          Step(b.(senses := Watch(fed, observation), evidence := evidence), Observed(observation))
  }

  /** What the bot observes is the controlled player, a living enemy if any, and an open pickup if any. */
  lemma ObservedMeaning(b: Bot, chunk: Chunk)
    requires IngestSnapshot(b, chunk).reply.Observed?
    ensures var seen := IngestSnapshot(b, chunk).reply.observation;
            && Some(seen.player.id) == b.senses.controlled
            && (seen.nearestEnemy.Some? ==> LivingEnemy(seen.nearestEnemy.value))
            && (seen.nearestPickup.Some? ==> OpenPickup(seen.nearestPickup.value))
  {
    ObservationMeaning(A.Ingest(b.senses.assembler, chunk).reply.snapshot, b.senses.controlled.value);
  }

  // ----- inputs -----

  function Toward(player: Entity, target: Entity, fallback: (int, int)): (int, int) {
    FixedDirection(WrapI32(target.x - player.x), WrapI32(target.y - player.y), fallback)
  }

  datatype Intent = Intent(movement: (int, int), aim: (int, int), heldPrimary: bool)

  /** Await death: only aim. Otherwise a pickup is approached before an enemy is fought. */
  function IntentOf(behavior: Behavior, observation: Option<Observation>, lastAim: (int, int)): Intent {
    if observation.None? then Intent((0, 0), lastAim, false)
    else
      var (seen, player) := (observation.value, observation.value.player);
      if behavior.AwaitAuthoritativeDeath? then
        Intent((0, 0), if seen.nearestEnemy.Some? then Toward(player, seen.nearestEnemy.value, lastAim) else lastAim, false)
      else if seen.nearestPickup.Some? then
        var pickup := seen.nearestPickup.value;
        Intent(Toward(player, pickup, (0, 0)), Toward(player, pickup, lastAim), false)
      else if seen.nearestEnemy.Some? then
        Intent((0, 0), Toward(player, seen.nearestEnemy.value, lastAim), true)
      else Intent((0, 0), lastAim, false)
  }

  function NextInput(b: Bot): Step {
    if !b.senses.terminal.Active? then Step(b, Err(TerminalJourney))
    else if b.hands.inputSequence == U32_MAX then Step(b, Err(SequenceExhausted))
    else
      var intent := IntentOf(b.behavior, b.senses.observation, b.hands.lastAim);
      var primary := if intent.heldPrimary && b.hands.primarySequence == 0 then 1 else b.hands.primarySequence;
      var tick := if b.senses.observation.Some? then b.senses.observation.value.serverTick else 0;
      Step(b.(hands := Hands(intent.aim, b.hands.inputSequence + 1, primary, Saturating(b.hands.inputsSent))),
           Input(InputFrame(b.hands.inputSequence + 1, tick, intent.movement, intent.aim, intent.heldPrimary, primary)))
  }

  // ----- the pickup mutation protocol -----

  /** "GBBOTM02" */
  const MUTATION_PREFIX: seq<u8> := [0x47, 0x42, 0x42, 0x4F, 0x54, 0x4D, 0x30, 0x32]

  /** The `n` lowest bytes of `v`, most significant first. */
  function BigEndian(v: nat, n: nat): (bytes: seq<u8>)
    ensures |bytes| == n
  {
    if n == 0 then [] else BigEndian(v / 256, n - 1) + [v % 256]
  }

  function MutationIdOf(sequence: u64): MutationId {
    MUTATION_PREFIX + BigEndian(sequence, 8)
  }

  function PickupInReach(senses: Senses, resolved: set<u64>): Option<u64> {
    if !senses.terminal.Active? || senses.observation.None? || senses.observation.value.nearestPickup.None? then None
    else
      var pickup := senses.observation.value.nearestPickup.value;
      if pickup.id in resolved
         || SquaredDistance(pickup, senses.observation.value.player) > PICKUP_DISTANCE * PICKUP_DISTANCE
      then None
      else Some(pickup.id)
  }

  function NextPickupRequest(b: Bot): Step {
    var p := b.pickups;
    if p.pendingMutation.Some? || PickupInReach(b.senses, p.resolved).None? then Step(b, Nothing)
    else if p.mutationSequence == U64_MAX then Step(b, Err(SequenceExhausted))
    else
      var (id, pickup) := (MutationIdOf(p.mutationSequence + 1), PickupInReach(b.senses, p.resolved).value);
      Step(b.(pickups := p.(mutationSequence := p.mutationSequence + 1, pendingMutation := Some(id), pendingPickup := Some(pickup))),
           Request(id, pickup))
  }

  function ApplyMutationResult(b: Bot, result: MutationResult): Step {
    var p := b.pickups;
    if p.pendingMutation != Some(result.mutationId) then Step(b, Err(UnexpectedMutationResult))
    else if !(result.accepted && result.acceptedCode) then
      Step(b.(pickups := p.(pendingMutation := None, pendingPickup := None)), Err(MutationRejected))
    else if p.pendingPickup.None? then
      Step(b.(pickups := p.(pendingMutation := None)), Err(UnexpectedMutationResult))
    else
      Step(b.(pickups := Pickups(p.mutationSequence, None, None, p.resolved + {p.pendingPickup.value}, Saturating(p.mutationsAccepted))),
           Nothing)
  }

  function ApplyControlResult(b: Bot, result: ControlResult): Step {
    if !result.accepted then Step(b, Err(ControlRejected))
    else
      var bound := if result.code.OtherCode? then b.senses
                   else b.senses.(session := Some(result.session), controlled := result.controlled);
      var evidence := if result.code.Reattached?
                      then b.evidence.(reconnectsAccepted := Saturating(b.evidence.reconnectsAccepted)) else b.evidence;
      match result.destination
      case CombatInstance => Step(b.(senses := bound.(terminal := Active), evidence := evidence), Nothing)
      case LanternHalls => Step(b.(senses := bound.(terminal := Recalled), evidence := evidence), Nothing)
      case DeathFinal => Step(b.(senses := bound.(terminal := Dead), evidence := evidence), Nothing)
      case Closed => Step(b.(senses := bound, evidence := evidence), Err(ClosedDestination))
  }

  class SnapshotBot {
    const assembler: A.BotSnapshotAssembler
    const behavior: Behavior
    var observation: Option<Observation>
    var firstPosition: Option<(i32, i32)>
    var lastAim: (int, int)
    var inputSequence: u32
    var primarySequence: u32
    var mutationSequence: u64
    var pendingMutation: Option<MutationId>
    var pendingPickup: Option<u64>
    var resolved: set<u64>
    var session: Option<nat>
    var controlled: Option<u64>
    var terminal: Outcome
    var evidence: Evidence

    var inputsSent: u64
    var mutationsAccepted: u64

    function View(): Bot
      reads this, assembler
    {
      Bot(behavior,
          Senses(assembler.View(), observation, firstPosition, session, controlled, terminal),
          Hands(lastAim, inputSequence, primarySequence, inputsSent),
          Pickups(mutationSequence, pendingMutation, pendingPickup, resolved, mutationsAccepted),
          evidence)
    }

    constructor (behavior: Behavior)
      ensures View() == Start(behavior) && fresh(assembler)
    {
      this.behavior := behavior;
      assembler := new A.BotSnapshotAssembler();
      observation, firstPosition, lastAim := None, None, (FIXED_SCALE, 0);
      inputSequence, primarySequence, mutationSequence := 0, 0, 0;
      pendingMutation, pendingPickup, resolved := None, None, {};
      session, controlled, terminal := None, None, Active;
      inputsSent, mutationsAccepted := 0, 0;
      evidence := Evidence(0, 0, false, false, false);
    }

    method Ingest(chunk: Chunk) returns (reply: Reply)
      requires A.Sound(assembler.View())
      modifies this, assembler
      ensures Step(View(), reply) == IngestSnapshot(old(View()), chunk)
      ensures A.Sound(assembler.View())
      ensures reply.Observed? ==>
                && Some(reply.observation.player.id) == controlled
                && (reply.observation.nearestEnemy.Some? ==> LivingEnemy(reply.observation.nearestEnemy.value))
                && (reply.observation.nearestPickup.Some? ==> OpenPickup(reply.observation.nearestPickup.value))
    {
      ghost var before := View();
      if IngestSnapshot(before, chunk).reply.Observed? {
        ObservedMeaning(before, chunk);
      }
      var assembled := assembler.IngestChunk(chunk);
      match assembled {
        case Quiet => return Nothing;
        case Refused(cause) => return Err(Assembly(cause));
        case Complete(snapshot) =>
          if controlled.None? { return Err(ControlledEntityMissing); }
          match Observe(snapshot, controlled.value) {
            case None => return Err(PlayerSnapshotCardinality);
            case Some(seen) =>
              Record(seen, SeesFriendly(snapshot.entities, controlled));
              return Observed(seen);
          }
      }
    }

    method Record(seen: Observation, friendly: bool)
      modifies this`evidence, this`firstPosition, this`terminal, this`observation
      ensures evidence == Witness(old(evidence), old(firstPosition), seen, friendly)
      ensures firstPosition == if old(firstPosition).None? then Some((seen.player.x, seen.player.y)) else old(firstPosition)
      ensures terminal == OutcomeOf(seen.player) && observation == Some(seen)
    {
      var moved, damaged := evidence.movedFromFirstPosition, evidence.sawEnemyDamage;
      var position := (seen.player.x, seen.player.y);
      if firstPosition.Some? {
        moved := moved || position != firstPosition.value;
      } else {
        firstPosition := Some(position);
      }
      if seen.nearestEnemy.Some? {
        damaged := damaged || 0 < seen.nearestEnemy.value.currentHealth < seen.nearestEnemy.value.maximumHealth;
      }
      evidence := Evidence(Saturating(evidence.completedSnapshots), evidence.reconnectsAccepted, damaged,
                           evidence.sawFriendlyProjectile || friendly, moved);
      if seen.player.Alive() {
        terminal := Active;
      } else if seen.player.currentHealth == 0 {
        terminal := Dead;
      } else {
        terminal := Recalled;
      }
      observation := Some(seen);
    }

    method Input() returns (reply: Reply)
      modifies this
      ensures Step(View(), reply) == NextInput(old(View()))
    {
      if !terminal.Active? { return Err(TerminalJourney); }
      if inputSequence == U32_MAX { return Err(SequenceExhausted); }
      inputSequence := inputSequence + 1;
      var movement, held := (0, 0), false;
      var tick := 0;
      if observation.Some? {
        var seen := observation.value;
        tick := seen.serverTick;
        if behavior.AwaitAuthoritativeDeath? {
          if seen.nearestEnemy.Some? {
            lastAim := Toward(seen.player, seen.nearestEnemy.value, lastAim);
          }
        } else if seen.nearestPickup.Some? {
          movement := Toward(seen.player, seen.nearestPickup.value, (0, 0));
          lastAim := Toward(seen.player, seen.nearestPickup.value, lastAim);
        } else if seen.nearestEnemy.Some? {
          lastAim := Toward(seen.player, seen.nearestEnemy.value, lastAim);
          held := true;
          if primarySequence == 0 {
            primarySequence := 1;
          }
        }
      }
      inputsSent := Saturating(inputsSent);
      return Reply.Input(InputFrame(inputSequence, tick, movement, lastAim, held, primarySequence));
    }

    method PickupRequest() returns (reply: Reply)
      modifies this
      ensures Step(View(), reply) == NextPickupRequest(old(View()))
    {
      if pendingMutation.Some? || !terminal.Active? { return Nothing; }
      if observation.None? || observation.value.nearestPickup.None? { return Nothing; }
      var pickup := observation.value.nearestPickup.value;
      if pickup.id in resolved { return Nothing; }
      if SquaredDistance(pickup, observation.value.player) > PICKUP_DISTANCE * PICKUP_DISTANCE { return Nothing; }
      if mutationSequence == U64_MAX { return Err(SequenceExhausted); }
      mutationSequence := mutationSequence + 1;
      var mutationId := MutationIdOf(mutationSequence);
      pendingMutation := Some(mutationId);
      pendingPickup := Some(pickup.id);
      return Request(mutationId, pickup.id);
    }

    method MutationAnswered(result: MutationResult) returns (reply: Reply)
      modifies this
      ensures Step(View(), reply) == ApplyMutationResult(old(View()), result)
    {
      if pendingMutation != Some(result.mutationId) { return Err(UnexpectedMutationResult); }
      pendingMutation := None;
      if result.accepted && result.acceptedCode {
        if pendingPickup.None? { return Err(UnexpectedMutationResult); }
        resolved := resolved + {pendingPickup.value};
        pendingPickup := None;
        mutationsAccepted := Saturating(mutationsAccepted);
        return Nothing;
      }
      pendingPickup := None;
      return Err(MutationRejected);
    }

    method ControlAnswered(result: ControlResult) returns (reply: Reply)
      modifies this
      ensures Step(View(), reply) == ApplyControlResult(old(View()), result)
    {
      if !result.accepted { return Err(ControlRejected); }
      if !result.code.OtherCode? {
        session := Some(result.session);
        controlled := result.controlled;
      }
      if result.code.Reattached? {
        evidence := evidence.(reconnectsAccepted := Saturating(evidence.reconnectsAccepted));
      }
      match result.destination {
        case CombatInstance => terminal := Active;
        case LanternHalls => terminal := Recalled;
        case DeathFinal => terminal := Dead;
        case Closed => return Err(ClosedDestination);
      }
      return Nothing;
    }
  }
}
