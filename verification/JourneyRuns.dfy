/** Theorems about every run of the bot. */
module JourneyRuns {
  import opened Basics
  import opened SnapshotWire
  import opened BotObservation
  import opened JourneyBot

  datatype Event =
    | ChunkArrives(chunk: Chunk)
    | InputDue
    | PickupDue
    | MutationArrives(mutation: MutationResult)
    | ControlArrives(control: ControlResult)

  function Apply(b: Bot, e: Event): Step {
    match e
    case ChunkArrives(chunk) => IngestSnapshot(b, chunk)
    case InputDue => NextInput(b)
    case PickupDue => NextPickupRequest(b)
    case MutationArrives(result) => ApplyMutationResult(b, result)
    case ControlArrives(result) => ApplyControlResult(b, result)
  }

  function After(b: Bot, run: seq<Event>): Bot {
    if run == [] then b else Apply(After(b, run[..|run| - 1]), run[|run| - 1]).bot
  }

  // ----- mutation identities -----

  function FromBigEndian(bytes: seq<u8>): nat {
    if bytes == [] then 0 else FromBigEndian(bytes[..|bytes| - 1]) * 256 + bytes[|bytes| - 1]
  }

  function Power256(n: nat): nat {
    if n == 0 then 1 else 256 * Power256(n - 1)
  }

  lemma {:induction false} BigEndianRoundTrip(v: nat, n: nat)
    requires v < Power256(n)
    ensures FromBigEndian(BigEndian(v, n)) == v
  {
    if n > 0 {
      var (high, low) := (v / 256, v % 256);
      assert high < Power256(n - 1);
      BigEndianRoundTrip(high, n - 1);
      var bytes := BigEndian(v, n);
      assert bytes[..|bytes| - 1] == BigEndian(high, n - 1);
    }
  }

  /** Different mutation sequences are issued under different 16-byte identities. */
  lemma MutationIdInjective(a: u64, b: u64)
    ensures MutationIdOf(a) == MutationIdOf(b) <==> a == b
    ensures |MutationIdOf(a)| == 16
    ensures MutationIdOf(a)[..8] == [0x47, 0x42, 0x42, 0x4F, 0x54, 0x4D, 0x30, 0x32] && FromBigEndian(MutationIdOf(a)[8..]) == a
  {
    assert Power256(8) == U64_MAX + 1;
    BigEndianRoundTrip(a, 8);
    BigEndianRoundTrip(b, 8);
    assert MutationIdOf(a)[8..] == BigEndian(a, 8) && MutationIdOf(b)[8..] == BigEndian(b, 8);
  }

  // ----- pickup conservation -----

  /** How many requests a run has issued, had accepted and had rejected. */
  datatype Tally = Tally(issued: nat, accepted: nat, rejected: nat)

  function Settle(tally: Tally, e: Event, reply: Reply): Tally {
    if e.PickupDue? && reply.Request? then tally.(issued := tally.issued + 1)
    else if e.MutationArrives? && reply.Nothing? then tally.(accepted := tally.accepted + 1)
    else if e.MutationArrives? && reply == Err(MutationRejected) then tally.(rejected := tally.rejected + 1)
    else tally
  }

  function TallyOf(b: Bot, run: seq<Event>): Tally {
    if run == [] then Tally(0, 0, 0)
    else
      var (before, last) := (run[..|run| - 1], run[|run| - 1]);
      Settle(TallyOf(b, before), last, Apply(After(b, before), last).reply)
  }

  function Saturated(n: nat): u64 {
    if n <= U64_MAX then n else U64_MAX
  }

  /** The books of the mutation protocol: at most one request is open and every other one is settled. */
  predicate Balanced(p: Pickups, tally: Tally) {
    && (p.pendingMutation.Some? <==> p.pendingPickup.Some?)
    && (p.pendingPickup.Some? ==> p.pendingPickup.value !in p.resolved)
    && (p.pendingMutation.Some? ==> p.pendingMutation == Some(MutationIdOf(p.mutationSequence)))
    && p.mutationSequence == tally.issued
    && tally.issued == tally.accepted + tally.rejected + (if p.pendingMutation.Some? then 1 else 0)
    && |p.resolved| == tally.accepted
    && p.mutationsAccepted == Saturated(tally.accepted)
  }

  lemma StepBalanced(b: Bot, e: Event, tally: Tally)
    requires Balanced(b.pickups, tally)
    ensures Balanced(Apply(b, e).bot.pickups, Settle(tally, e, Apply(b, e).reply))
  {
    match e {
      case ChunkArrives(_) =>
      case InputDue =>
      case PickupDue =>
      case MutationArrives(result) =>
        if Apply(b, e).reply.Nothing? {
          assert |b.pickups.resolved + {b.pickups.pendingPickup.value}| == |b.pickups.resolved| + 1;
        }
      case ControlArrives(_) =>
    }
  }

  /**
   * Over every run at most one mutation is outstanding, mutation and pickup are outstanding together,
   * every request issued is accepted, rejected or that one, and the accepted ones are the resolved set.
   */
  lemma {:induction false} PickupsAreConserved(b: Bot, run: seq<Event>)
    requires Balanced(b.pickups, Tally(0, 0, 0))
    ensures Balanced(After(b, run).pickups, TallyOf(b, run))
  {
    if run != [] {
      PickupsAreConserved(b, run[..|run| - 1]);
      StepBalanced(After(b, run[..|run| - 1]), run[|run| - 1], TallyOf(b, run[..|run| - 1]));
    }
  }

  lemma StepSequence(b: Bot, e: Event)
    ensures b.pickups.mutationSequence <= Apply(b, e).bot.pickups.mutationSequence
    ensures b.pickups.resolved <= Apply(b, e).bot.pickups.resolved
    ensures e.PickupDue? && Apply(b, e).reply.Request? ==>
              var reply := Apply(b, e).reply;
              && Apply(b, e).bot.pickups.mutationSequence == b.pickups.mutationSequence + 1
              && reply.mutationId == MutationIdOf(b.pickups.mutationSequence + 1)
              && reply.pickup !in b.pickups.resolved
  {
  }

  /** The pickup protocol's state before position `i` of a run. */
  function PickupsAt(b: Bot, run: seq<Event>, i: nat): Pickups
    requires i <= |run|
  {
    After(b, run[..i]).pickups
  }

  lemma PickupsNext(b: Bot, run: seq<Event>, i: nat)
    requires i < |run|
    ensures PickupsAt(b, run, i).mutationSequence <= PickupsAt(b, run, i + 1).mutationSequence
    ensures PickupsAt(b, run, i).resolved <= PickupsAt(b, run, i + 1).resolved
  {
    assert run[..i + 1][..i] == run[..i];
    StepSequence(After(b, run[..i]), run[i]);
  }

  lemma {:induction false} SequenceMonotone(b: Bot, run: seq<Event>, i: nat, j: nat)
    requires i <= j <= |run|
    ensures PickupsAt(b, run, i).mutationSequence <= PickupsAt(b, run, j).mutationSequence
    ensures PickupsAt(b, run, i).resolved <= PickupsAt(b, run, j).resolved
    decreases j
  {
    if i < j {
      SequenceMonotone(b, run, i, j - 1);
      PickupsNext(b, run, j - 1);
    }
  }

  /** The request, if any, that the call at position `i` of a run issues. */
  function RequestAt(b: Bot, run: seq<Event>, i: nat): Reply
    requires i < |run|
  {
    if run[i].PickupDue? then Apply(After(b, run[..i]), run[i]).reply else Nothing
  }

  lemma RequestNumber(b: Bot, run: seq<Event>, i: nat)
    requires i < |run| && RequestAt(b, run, i).Request?
    ensures RequestAt(b, run, i).mutationId == MutationIdOf(After(b, run[..i + 1]).pickups.mutationSequence)
    ensures After(b, run[..i + 1]).pickups.mutationSequence == After(b, run[..i]).pickups.mutationSequence + 1
    ensures RequestAt(b, run, i).pickup !in After(b, run[..i]).pickups.resolved
  {
    assert run[..i + 1][..i] == run[..i];
    StepSequence(After(b, run[..i]), run[i]);
  }

  /** No two requests of one run share an identity, and the later one is for no pickup resolved before it. */
  lemma RequestsAreDistinct(b: Bot, run: seq<Event>, i: nat, j: nat)
    requires i < j < |run| && RequestAt(b, run, i).Request? && RequestAt(b, run, j).Request?
    ensures RequestAt(b, run, i).mutationId != RequestAt(b, run, j).mutationId
    ensures RequestAt(b, run, j).pickup !in After(b, run[..j]).pickups.resolved
  {
    RequestNumber(b, run, i);
    RequestNumber(b, run, j);
    SequenceMonotone(b, run, i, j);
    SequenceMonotone(b, run, i + 1, j);
    MutationIdInjective(After(b, run[..i + 1]).pickups.mutationSequence, After(b, run[..j + 1]).pickups.mutationSequence);
  }

  // ----- inputs -----

  /** The kept aim always has max-norm 1000, and the primary press sequence is 0 or 1. */
  predicate Steady(hands: Hands) {
    Max(Magnitude(hands.lastAim.0), Magnitude(hands.lastAim.1)) == FIXED_SCALE && hands.primarySequence <= 1
  }

  /** The frame aims with max-norm 1000, moves not at all or where it aims, and fires only standing still. */
  predicate SteadyFrame(frame: InputFrame) {
    && Max(Magnitude(frame.aim.0), Magnitude(frame.aim.1)) == FIXED_SCALE
    && (frame.movement == (0, 0) || frame.movement == frame.aim)
    && (frame.heldPrimary ==> frame.primarySequence == 1 && frame.movement == (0, 0))
  }

  lemma TowardIsUnit(player: Entity, target: Entity, fallback: (int, int))
    ensures var (x, y) := Toward(player, target, fallback);
            Max(Magnitude(x), Magnitude(y)) == FIXED_SCALE || (x, y) == fallback
  {
    var (dx, dy) := (WrapI32(target.x - player.x), WrapI32(target.y - player.y));
    if dx != 0 || dy != 0 {
      FixedDirectionIsUnit(dx, dy, fallback);
    }
  }

  lemma IntentIsSteady(behavior: Behavior, observation: Option<Observation>, lastAim: (int, int))
    requires Max(Magnitude(lastAim.0), Magnitude(lastAim.1)) == FIXED_SCALE
    ensures var intent := IntentOf(behavior, observation, lastAim);
            && Max(Magnitude(intent.aim.0), Magnitude(intent.aim.1)) == FIXED_SCALE
            && (intent.movement == (0, 0) || intent.movement == intent.aim)
            && (intent.heldPrimary ==> intent.movement == (0, 0) && behavior.FightAndCollect?)
  {
    if observation.Some? {
      var seen := observation.value;
      if seen.nearestEnemy.Some? {
        TowardIsUnit(seen.player, seen.nearestEnemy.value, lastAim);
      }
      if seen.nearestPickup.Some? {
        TowardIsUnit(seen.player, seen.nearestPickup.value, lastAim);
        assert Toward(seen.player, seen.nearestPickup.value, (0, 0))
               in {(0, 0), Toward(seen.player, seen.nearestPickup.value, lastAim)};
      }
    }
  }

  lemma InputStep(b: Bot)
    requires Steady(b.hands)
    ensures Steady(NextInput(b).bot.hands)
    ensures NextInput(b).reply.Input? ==>
              && SteadyFrame(NextInput(b).reply.frame)
              && NextInput(b).reply.frame.sequence == b.hands.inputSequence + 1 == NextInput(b).bot.hands.inputSequence
  {
    IntentIsSteady(b.behavior, b.senses.observation, b.hands.lastAim);
  }

  lemma StepSteady(b: Bot, e: Event)
    requires Steady(b.hands)
    ensures Steady(Apply(b, e).bot.hands)
  {
    match e {
      case InputDue => InputStep(b);
      case _ => assert Apply(b, e).bot.hands == b.hands;
    }
  }

  lemma {:induction false} RunSteady(b: Bot, run: seq<Event>)
    requires Steady(b.hands)
    ensures Steady(After(b, run).hands)
  {
    if run != [] {
      RunSteady(b, run[..|run| - 1]);
      StepSteady(After(b, run[..|run| - 1]), run[|run| - 1]);
    }
  }

  /** After every run, the next input frame the bot emits is steady. */
  lemma InputsStaySteady(behavior: Behavior, run: seq<Event>)
    ensures var reply := NextInput(After(Start(behavior), run)).reply; reply.Input? ==> SteadyFrame(reply.frame)
  {
    RunSteady(Start(behavior), run);
    InputStep(After(Start(behavior), run));
  }
}
