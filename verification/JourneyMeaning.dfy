/** What the bot's observations, inputs, requests and evidence mean over whole runs. */
module JourneyMeaning {
  import opened Basics
  import opened SnapshotWire
  import A = BotAssembler
  import AR = AssemblyRuns
  import opened BotObservation
  import opened JourneyBot
  import opened JourneyRuns

  // ----- where the observation comes from -----

  /** The call completes this snapshot, and the bot observes it. */
  predicate Observes(b: Bot, e: Event, snapshot: Snapshot) {
    && e.ChunkArrives?
    && A.Ingest(b.senses.assembler, e.chunk).reply == A.Complete(snapshot)
    && b.senses.controlled.Some? && Observe(snapshot, b.senses.controlled.value).Some?
  }

  lemma ObservesOnce(b: Bot, e: Event, snapshot: Snapshot)
    requires Observes(b, e, snapshot)
    ensures Apply(b, e).reply == Observed(Observe(snapshot, b.senses.controlled.value).value)
    ensures Apply(b, e).bot.senses.observation == Observe(snapshot, b.senses.controlled.value)
  {
  }

  /** A call replies with an observation exactly when it observes a snapshot; otherwise the held one stays. */
  lemma ObservationStep(b: Bot, e: Event)
    ensures Apply(b, e).reply.Observed? <==> exists snapshot :: Observes(b, e, snapshot)
    ensures Apply(b, e).bot.senses.observation
            == if Apply(b, e).reply.Observed? then Some(Apply(b, e).reply.observation) else b.senses.observation
  {
    if e.ChunkArrives? {
      var reply := A.Ingest(b.senses.assembler, e.chunk).reply;
      if reply.Complete? && b.senses.controlled.Some? && Observe(reply.snapshot, b.senses.controlled.value).Some? {
        assert Observes(b, e, reply.snapshot);
      }
    }
  }

  /** How a chunk is answered: with the assembler's own refusal, with nothing, or for a complete snapshot by whether its player is seen. */
  lemma ChunkAnswers(b: Bot, chunk: Chunk)
    ensures var (step, fed) := (IngestSnapshot(b, chunk), A.Ingest(b.senses.assembler, chunk));
            && step.bot.senses.assembler == fed.assembler
            && (fed.reply.Refused? ==> step.reply == Err(Assembly(fed.reply.error)))
            && (fed.reply.Quiet? <==> step.reply == Nothing)
            && (fed.reply.Complete? && b.senses.controlled.None? ==> step.reply == Err(ControlledEntityMissing))
            && (fed.reply.Complete? && b.senses.controlled.Some? ==>
                  (step.reply.Observed? <==>
                     exists e :: e in fed.reply.snapshot.entities && e.kind == Player && Some(e.id) == b.senses.controlled)
                  && (!step.reply.Observed? ==> step.reply == Err(PlayerSnapshotCardinality)))
            && (!step.reply.Observed? ==> step.bot == b.(senses := b.senses.(assembler := fed.assembler)))
  {
    var fed := A.Ingest(b.senses.assembler, chunk);
    if fed.reply.Complete? && b.senses.controlled.Some? {
      ObservationMeaning(fed.reply.snapshot, b.senses.controlled.value);
    }
  }

  /** The chunks of a run, in order. */
  function ChunksOf(run: seq<Event>): seq<Chunk> {
    if run == [] then []
    else ChunksOf(run[..|run| - 1]) + if run[|run| - 1].ChunkArrives? then [run[|run| - 1].chunk] else []
  }

  /** Whatever else happens in a run, the bot's assembler is where the chunks alone would have taken it. */
  lemma {:induction false} AssemblerSeesEveryChunk(b: Bot, run: seq<Event>)
    ensures After(b, run).senses.assembler == AR.After(b.senses.assembler, ChunksOf(run))
  {
    if run != [] {
      var (front, last) := (run[..|run| - 1], run[|run| - 1]);
      AssemblerSeesEveryChunk(b, front);
      if last.ChunkArrives? {
        ChunkAnswers(After(b, front), last.chunk);
        assert (ChunksOf(front) + [last.chunk])[..|ChunksOf(front)|] == ChunksOf(front);
      } else {
        OthersKeepAssembler(After(b, front), last);
        assert ChunksOf(run) == ChunksOf(front);
      }
    }
  }

  lemma OthersKeepAssembler(b: Bot, e: Event)
    requires !e.ChunkArrives?
    ensures Apply(b, e).bot.senses.assembler == b.senses.assembler
  {
  }

  /** The reply at position `i` of a run. */
  function ReplyAt(b: Bot, run: seq<Event>, i: nat): Reply
    requires i < |run|
  {
    Apply(After(b, run[..i]), run[i]).reply
  }

  /** The observation held before position `i` of a run. */
  function HeldAt(b: Bot, run: seq<Event>, i: nat): Option<Observation>
    requires i <= |run|
  {
    After(b, run[..i]).senses.observation
  }

  /** The call at `i` is the last before `j` that observed a snapshot, and what it observed is still held. */
  predicate LastObserved(b: Bot, run: seq<Event>, i: nat, j: nat) {
    && i < j <= |run|
    && ReplyAt(b, run, i).Observed? && HeldAt(b, run, j) == Some(ReplyAt(b, run, i).observation)
    && forall k :: i < k < j ==> !ReplyAt(b, run, k).Observed?
  }

  function Told(reply: Reply): Option<Observation> {
    if reply.Observed? then Some(reply.observation) else None
  }

  /** What each call of a run observed, if anything. */
  function Heard(b: Bot, run: seq<Event>): (heard: seq<Option<Observation>>)
    ensures |heard| == |run|
  {
    if run == [] then []
    else Heard(b, run[..|run| - 1]) + [Told(Apply(After(b, run[..|run| - 1]), run[|run| - 1]).reply)]
  }

  lemma {:induction false} HeldIsLatest(b: Bot, run: seq<Event>)
    requires b.senses.observation.None?
    ensures After(b, run).senses.observation == Latest(Heard(b, run))
  {
    if run != [] {
      HeldIsLatest(b, run[..|run| - 1]);
      ObservationStep(After(b, run[..|run| - 1]), run[|run| - 1]);
    }
  }

  lemma {:induction false} HeardAt(b: Bot, run: seq<Event>, j: nat, i: nat)
    requires i < j <= |run|
    ensures Heard(b, run[..j])[i] == Told(ReplyAt(b, run, i))
  {
    assert run[..j][..j - 1] == run[..j - 1];
    if i < j - 1 {
      HeardAt(b, run, j - 1, i);
    }
  }

  lemma HeldWasObserved(b: Bot, run: seq<Event>, j: nat) returns (i: nat)
    requires b.senses.observation.None? && j <= |run| && HeldAt(b, run, j).Some?
    ensures LastObserved(b, run, i, j)
  {
    HeldIsLatest(b, run[..j]);
    i := LatestAt(Heard(b, run[..j]));
    HeardAt(b, run, j, i);
    forall k | i < k < j ensures !ReplyAt(b, run, k).Observed? {
      HeardAt(b, run, j, k);
    }
  }

  // ----- pickup requests -----

  /** A request is issued exactly for an observed pickup in reach, unresolved, with nothing outstanding, on an active journey. */
  lemma RequestMeaning(b: Bot)
    ensures var (step, p) := (NextPickupRequest(b), b.pickups);
            var wanted := && p.pendingMutation.None? && b.senses.terminal.Active?
                          && b.senses.observation.Some? && b.senses.observation.value.nearestPickup.Some?
                          && b.senses.observation.value.nearestPickup.value.id !in p.resolved
                          && SquaredDistance(b.senses.observation.value.nearestPickup.value, b.senses.observation.value.player)
                             <= 1_210_000;
            && (step.reply.Request? <==> wanted && p.mutationSequence < U64_MAX)
            && (step.reply == Err(SequenceExhausted) <==> wanted && p.mutationSequence == U64_MAX)
            && (step.reply.Request? ==>
                  && step.reply.pickup == b.senses.observation.value.nearestPickup.value.id
                  && step.bot == b.(pickups := p.(mutationSequence := p.mutationSequence + 1,
                                                  pendingMutation := Some(step.reply.mutationId),
                                                  pendingPickup := Some(step.reply.pickup))))
            && (!step.reply.Request? ==> step.bot == b)
  {
  }

  /** Every request of a run names an open personal pickup of the last snapshot observed, the first by distance. */
  lemma RequestsNameSeenPickups(b: Bot, run: seq<Event>, j: nat) returns (i: nat, snapshot: Snapshot)
    requires b.senses.observation.None? && j < |run| && RequestAt(b, run, j).Request?
    ensures LastObserved(b, run, i, j) && Observes(After(b, run[..i]), run[i], snapshot)
    ensures HeldAt(b, run, j).Some? && var seen := HeldAt(b, run, j).value;
            && seen.nearestPickup.Some? && seen.nearestPickup.value.id == RequestAt(b, run, j).pickup
            && FirstWith(seen.nearestPickup, snapshot.entities, seen.player, OpenPickup)
  {
    RequestMeaning(After(b, run[..j]));
    i := HeldWasObserved(b, run, j);
    var before := After(b, run[..i]);
    ObservationStep(before, run[i]);
    snapshot :| Observes(before, run[i], snapshot);
    ObservesOnce(before, run[i], snapshot);
    ObservationMeaning(snapshot, before.senses.controlled.value);
  }

  /** Only the outstanding mutation can be answered; an acceptance resolves exactly its pickup, a rejection nothing. */
  lemma AnswerMeaning(b: Bot, result: MutationResult)
    requires b.pickups.pendingMutation.Some? ==> b.pickups.pendingPickup.Some?
    ensures var (step, p) := (ApplyMutationResult(b, result), b.pickups);
            if p.pendingMutation != Some(result.mutationId) then step == Step(b, Err(UnexpectedMutationResult))
            else
              && step.reply == (if result.accepted && result.acceptedCode then Nothing else Err(MutationRejected))
              && step.bot == b.(pickups := step.bot.pickups)
              && step.bot.pickups.pendingMutation.None? && step.bot.pickups.pendingPickup.None?
              && step.bot.pickups.mutationSequence == p.mutationSequence
              && step.bot.pickups.resolved == (if result.accepted && result.acceptedCode then p.resolved + {p.pendingPickup.value} else p.resolved)
  {
  }

  // ----- inputs -----

  /** The direction points along the offset: max-norm 1000, no sign reversed, truncated by less than a unit. */
  predicate PointsAlong(d: (int, int), x: int, y: int) {
    var maximum := Max(Magnitude(x), Magnitude(y));
    && Max(Magnitude(d.0), Magnitude(d.1)) == 1000
    && (x >= 0 ==> d.0 >= 0) && (x <= 0 ==> d.0 <= 0) && (y >= 0 ==> d.1 >= 0) && (y <= 0 ==> d.1 <= 0)
    && Magnitude(d.0) * maximum <= Magnitude(x) * 1000 < (Magnitude(d.0) + 1) * maximum
    && Magnitude(d.1) * maximum <= Magnitude(y) * 1000 < (Magnitude(d.1) + 1) * maximum
  }

  function OffsetX(player: Entity, target: Entity): i32 { WrapI32(target.x - player.x) }

  function OffsetY(player: Entity, target: Entity): i32 { WrapI32(target.y - player.y) }

  predicate Apart(player: Entity, target: Entity) {
    OffsetX(player, target) != 0 || OffsetY(player, target) != 0
  }

  /** The direction points from the player to the target, or is the fallback when they coincide. */
  predicate Toward(d: (int, int), player: Entity, target: Entity, fallback: (int, int)) {
    if Apart(player, target) then PointsAlong(d, OffsetX(player, target), OffsetY(player, target)) else d == fallback
  }

  lemma TowardPoints(player: Entity, target: Entity, fallback: (int, int))
    ensures Toward(JourneyBot.Toward(player, target, fallback), player, target, fallback)
  {
    if Apart(player, target) {
      FixedDirectionIsUnit(OffsetX(player, target), OffsetY(player, target), fallback);
    }
  }

  /** Whom the bot attends to: a fighter the nearest pickup before the nearest enemy, a waiter only the enemy. */
  function Target(b: Bot): Option<Entity> {
    if b.senses.observation.None? then None
    else if b.behavior.FightAndCollect? && b.senses.observation.value.nearestPickup.Some? then b.senses.observation.value.nearestPickup
    else b.senses.observation.value.nearestEnemy
  }

  predicate Collecting(b: Bot) {
    b.behavior.FightAndCollect? && b.senses.observation.Some? && b.senses.observation.value.nearestPickup.Some?
  }

  /** The aim and movement of an intent, in terms of what is attended to. */
  predicate Attends(b: Bot, intent: Intent) {
    && (if Target(b).Some? then Toward(intent.aim, b.senses.observation.value.player, Target(b).value, b.hands.lastAim)
        else intent.aim == b.hands.lastAim)
    && (if Collecting(b) then Toward(intent.movement, b.senses.observation.value.player, Target(b).value, (0, 0))
        else intent.movement == (0, 0))
    && (intent.heldPrimary <==> b.behavior.FightAndCollect? && !Collecting(b) && Target(b).Some?)
  }

  lemma IntentAttends(b: Bot)
    ensures Attends(b, IntentOf(b.behavior, b.senses.observation, b.hands.lastAim))
  {
    if Target(b).Some? {
      TowardPoints(b.senses.observation.value.player, Target(b).value, b.hands.lastAim);
      TowardPoints(b.senses.observation.value.player, Target(b).value, (0, 0));
    }
  }

  /**
   * The next input: it aims at the target; only a fighter moves, and only toward a pickup it sees, and
   * only a fighter fires, and only at an enemy with no pickup in sight; it carries the next sequence
   * and the tick of the observation it answers.
   */
  lemma InputMeaning(b: Bot)
    ensures var step := NextInput(b);
            && (step.reply.Input? <==> b.senses.terminal.Active? && b.hands.inputSequence < U32_MAX)
            && (step.reply == Err(TerminalJourney) <==> !b.senses.terminal.Active?)
            && (!step.reply.Input? ==> step.bot == b && (step.reply == Err(TerminalJourney) || step.reply == Err(SequenceExhausted)))
            && (step.reply.Input? ==>
                  var frame := step.reply.frame;
                  && Attends(b, Intent(frame.movement, frame.aim, frame.heldPrimary))
                  && frame.primarySequence == (if frame.heldPrimary && b.hands.primarySequence == 0 then 1 else b.hands.primarySequence)
                  && frame.sequence == b.hands.inputSequence + 1
                  && frame.clientTick == (if b.senses.observation.Some? then b.senses.observation.value.serverTick else 0)
                  && step.bot == b.(hands := step.bot.hands)
                  && step.bot.hands.lastAim == frame.aim && step.bot.hands.inputSequence == frame.sequence
                  && step.bot.hands.primarySequence == frame.primarySequence)
  {
    IntentAttends(b);
  }

  // ----- the session -----

  /** Before anything is seen the bot aims along the first axis, stands still and holds its fire. */
  lemma FirstInput(behavior: Behavior)
    ensures NextInput(Start(behavior)).reply == Input(InputFrame(1, 0, (0, 0), (1000, 0), false, 0))
  {
  }

  /** An accepted join or reattach binds its session and entity; every accepted answer but a closed one sets the outcome. */
  lemma ControlMeaning(b: Bot, result: ControlResult)
    ensures var (step, senses) := (ApplyControlResult(b, result), b.senses);
            if !result.accepted then step == Step(b, Err(ControlRejected))
            else
              var binds := result.code == Joined || result.code == Reattached;
              && step.reply == (if result.destination == Closed then Err(ClosedDestination) else Nothing)
              && step.bot == b.(senses := step.bot.senses, evidence := step.bot.evidence)
              && step.bot.senses == senses.(session := if binds then Some(result.session) else senses.session,
                                            controlled := if binds then result.controlled else senses.controlled,
                                            terminal := step.bot.senses.terminal)
              && (result.destination == CombatInstance ==> step.bot.senses.terminal == Active)
              && (result.destination == LanternHalls ==> step.bot.senses.terminal == Recalled)
              && (result.destination == DeathFinal ==> step.bot.senses.terminal == Dead)
              && (result.destination == Closed ==> step.bot.senses.terminal == senses.terminal)
  {
  }

  /** Outside accepted answers, the outcome is that of the player last observed: alive, dead at zero health, else recalled. */
  lemma OutcomeMeaning(b: Bot, e: Event)
    requires !e.ControlArrives?
    ensures var after := Apply(b, e).bot.senses;
            if Apply(b, e).reply.Observed? then
              var player := Apply(b, e).reply.observation.player;
              && (after.terminal == Active <==> player.stateFlags % 2 == 1)
              && (after.terminal == Dead <==> player.stateFlags % 2 == 0 && player.currentHealth == 0)
              && after.session == b.senses.session && after.controlled == b.senses.controlled
            else after == b.senses.(assembler := after.assembler)
  {
  }

  // ----- evidence -----

  /** The observations of a run, in order. */
  function Observations(b: Bot, run: seq<Event>): seq<Observation> {
    if run == [] then []
    else
      var (before, last) := (run[..|run| - 1], run[|run| - 1]);
      var reply := Apply(After(b, before), last).reply;
      Observations(b, before) + if reply.Observed? then [reply.observation] else []
  }

  function Place(o: Observation): (i32, i32) { (o.player.x, o.player.y) }

  predicate ShowsDamage(o: Observation) {
    o.nearestEnemy.Some? && o.nearestEnemy.value.currentHealth != 0
    && o.nearestEnemy.value.currentHealth < o.nearestEnemy.value.maximumHealth
  }

  /** The evidence is that of the observations made. */
  predicate Witnessed(evidence: Evidence, senses: Senses, seen: seq<Observation>) {
    && evidence.completedSnapshots == Saturated(|seen|)
    && (evidence.sawEnemyDamage <==> exists o :: o in seen && ShowsDamage(o))
    && (evidence.movedFromFirstPosition <==> exists o :: o in seen && Place(o) != Place(seen[0]))
    && senses.firstPosition == (if seen == [] then None else Some(Place(seen[0])))
    && senses.observation == (if seen == [] then None else Some(seen[|seen| - 1]))
  }

  /** How the evidence moves when `o` is observed. */
  predicate Records(before: Bot, after: Bot, o: Observation) {
    && after.evidence.completedSnapshots == Saturating(before.evidence.completedSnapshots)
    && (after.evidence.sawEnemyDamage <==> before.evidence.sawEnemyDamage || ShowsDamage(o))
    && (after.evidence.movedFromFirstPosition <==>
          before.evidence.movedFromFirstPosition
          || (before.senses.firstPosition.Some? && before.senses.firstPosition.value != Place(o)))
    && after.senses.firstPosition == (if before.senses.firstPosition.Some? then before.senses.firstPosition else Some(Place(o)))
    && after.senses.observation == Some(o)
  }

  lemma ObservedEvidence(b: Bot, e: Event)
    requires Apply(b, e).reply.Observed?
    ensures Records(b, Apply(b, e).bot, Apply(b, e).reply.observation)
  {
  }

  lemma UnobservedEvidence(b: Bot, e: Event)
    requires !Apply(b, e).reply.Observed?
    ensures var after := Apply(b, e).bot;
            && after.evidence == b.evidence.(reconnectsAccepted := after.evidence.reconnectsAccepted)
            && after.senses.firstPosition == b.senses.firstPosition && after.senses.observation == b.senses.observation
  {
  }

  lemma WitnessedNext(before: Bot, after: Bot, seen: seq<Observation>, o: Observation)
    requires Witnessed(before.evidence, before.senses, seen) && Records(before, after, o)
    ensures Witnessed(after.evidence, after.senses, seen + [o])
  {
    assert forall p :: p in seen + [o] <==> p in seen || p == o;
    assert seen != [] ==> (seen + [o])[0] == seen[0];
  }

  /**
   * Over every run from the start, the evidence is exactly what the observations made show: how many,
   * whether one shows a damaged enemy nearest, and whether one is away from the first place.
   */
  lemma {:induction false} EvidenceIsExact(behavior: Behavior, run: seq<Event>)
    ensures var b := After(Start(behavior), run); Witnessed(b.evidence, b.senses, Observations(Start(behavior), run))
  {
    if run != [] {
      var (before, e) := (run[..|run| - 1], run[|run| - 1]);
      var (b, seen) := (After(Start(behavior), before), Observations(Start(behavior), before));
      EvidenceIsExact(behavior, before);
      if Apply(b, e).reply.Observed? {
        ObservedEvidence(b, e);
        WitnessedNext(b, Apply(b, e).bot, seen, Apply(b, e).reply.observation);
      } else {
        UnobservedEvidence(b, e);
      }
    }
  }

  /** A friendly projectile is on record exactly from the first observed snapshot that shows one of the controlled player's. */
  lemma FriendlyEvidence(b: Bot, e: Event, snapshot: Snapshot)
    requires Observes(b, e, snapshot)
    ensures Apply(b, e).bot.evidence.sawFriendlyProjectile <==>
              || b.evidence.sawFriendlyProjectile
              || exists p :: p in snapshot.entities && p.kind == FriendlyProjectile && Some(p.sourceEntityId) == b.senses.controlled
  {
    assert SeesFriendly(snapshot.entities, b.senses.controlled) <==>
           exists p :: p in snapshot.entities && p.kind == FriendlyProjectile && Some(p.sourceEntityId) == b.senses.controlled;
  }

  /** How many accepted reattachments and sent inputs a run has. */
  datatype Counts = Counts(reattached: nat, inputs: nat)

  function CountsOf(b: Bot, run: seq<Event>): Counts {
    if run == [] then Counts(0, 0)
    else
      var (before, last) := (run[..|run| - 1], run[|run| - 1]);
      var counts := CountsOf(b, before);
      Counts(counts.reattached + if last.ControlArrives? && last.control.accepted && last.control.code == Reattached then 1 else 0,
             counts.inputs + if Apply(After(b, before), last).reply.Input? then 1 else 0)
  }

  lemma CountsStep(b: Bot, e: Event)
    ensures var after := Apply(b, e).bot;
            && after.evidence.reconnectsAccepted
               == (if e.ControlArrives? && e.control.accepted && e.control.code == Reattached
                   then Saturating(b.evidence.reconnectsAccepted) else b.evidence.reconnectsAccepted)
            && after.hands.inputsSent
               == (if Apply(b, e).reply.Input? then Saturating(b.hands.inputsSent) else b.hands.inputsSent)
  {
  }

  lemma {:induction false} CountsAreExact(behavior: Behavior, run: seq<Event>)
    ensures var (b, counts) := (After(Start(behavior), run), CountsOf(Start(behavior), run));
            b.evidence.reconnectsAccepted == Saturated(counts.reattached) && b.hands.inputsSent == Saturated(counts.inputs)
  {
    if run != [] {
      CountsAreExact(behavior, run[..|run| - 1]);
      CountsStep(After(Start(behavior), run[..|run| - 1]), run[|run| - 1]);
    }
  }
}
