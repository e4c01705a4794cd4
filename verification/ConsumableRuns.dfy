/** Exact retry and exactly-once bookkeeping of the consumable client over every run. */
module ConsumableRuns {
  import opened Basics
  import opened RouteProtocol
  import opened Consumable

  datatype Event =
    | ObserveCall(state: State, character: Id, route: RouteState)
    | BeginCall(slot: Slot, mutationId: Id, character: Id, route: RouteState)
    | ResultCall(result: UseResult, character: Id, route: RouteState)
    | LinkLostCall
    | CancelCall
    | RetainCall(selected: Option<Id>, projection: Option<RouteState>)

  function Apply(m: Model, e: Event): Step {
    match e
    case ObserveCall(state, character, route) => m.Observe(state, character, route)
    case BeginCall(slot, mutationId, character, route) => m.Begin(slot, mutationId, character, route)
    case ResultCall(result, character, route) => m.ApplyResult(result, character, route)
    case LinkLostCall => m.TransportLost()
    case CancelCall => m.CancelForNewRoute()
    case RetainCall(selected, projection) => m.RetainForRoute(selected, projection)
  }

  function After(m: Model, run: seq<Event>): Model {
    if run == [] then m else Apply(After(m, run[..|run| - 1]), run[|run| - 1]).model
  }

  lemma AfterOne(m: Model, run: seq<Event>, i: nat)
    requires i < |run|
    ensures After(m, run[..i + 1]) == Apply(After(m, run[..i]), run[i]).model
  {
    assert run[..i + 1][..i] == run[..i];
  }

  // ----- what is stored -----

  /** The stored projection and frame are valid and of the compiled content revision. */
  predicate Sound(m: Model) {
    && (m.authority.Some? ==> m.authority.value.Validate() && m.authority.value.contentRevision == m.revision)
    && (m.pending.Some? ==> m.pending.value.Validate() && m.pending.value.payload.contentRevision == m.revision)
  }

  lemma {:induction false} RunSound(revision: Hash, run: seq<Event>)
    ensures Sound(After(New(revision), run)) && After(New(revision), run).revision == revision
  {
    if run != [] {
      RunSound(revision, run[..|run| - 1]);
      var m, e := After(New(revision), run[..|run| - 1]), run[|run| - 1];
      match e {
        case ObserveCall(state, character, route) =>
        case BeginCall(slot, mutationId, character, route) =>
        case ResultCall(result, character, route) =>
        case LinkLostCall =>
        case CancelCall =>
        case RetainCall(selected, projection) =>
      }
    }
  }

  /**
   * An intent is sent exactly when nothing is pending and the held projection is of this very actor,
   * and the frame then names that projection's inventory version.
   */
  /** The frame names this character, actor generation and lineage. */
  predicate SentFor(frame: Frame, character: Id, route: RouteState) {
    && frame.payload.characterId == character
    && frame.payload.actorGeneration == route.actorGeneration
    && route.lineage == Some(frame.payload.lineage)
  }

  lemma BeginMeaning(m: Model, slot: Slot, mutationId: Id, character: Id, route: RouteState)
    requires Sound(m)
    ensures var step := m.Begin(slot, mutationId, character, route);
            && (step.reply.Sent? <==>
                  m.pending.None? && m.authority.Some? && m.Fits(m.authority.value, character, route) && mutationId != 0)
            && (step.reply.Sent? ==>
                  && step.model == m.(pending := Some(step.reply.frame))
                  && step.reply.frame.mutationId == mutationId
                  && SentFor(step.reply.frame, character, route)
                  && step.reply.frame.payload.contentRevision == m.revision
                  && step.reply.frame.payloadHash == Digest(step.reply.frame.payload)
                  && step.reply.frame.payload.expectedInventoryVersion == m.authority.value.inventoryVersion
                  && step.reply.frame.payload.slot == slot)
            && (!step.reply.Sent? ==> step.model == m)
  {
  }

  // ----- exact retry -----

  /** A valid definitive answer to this frame, whose projection, if any, fits the current actor. */
  predicate Settles(m: Model, frame: Frame, e: Event) {
    && e.ResultCall? && e.result.Validate()
    && e.result.mutationId == frame.mutationId
    && !e.result.code.ServiceUnavailable?
    && (e.result.state.Some? ==> m.Fits(e.result.state.value, e.character, e.route))
  }

  /** A route change that leaves the frame's character, actor generation or lineage behind. */
  predicate Abandons(frame: Frame, e: Event) {
    || e.CancelCall?
    || (e.RetainCall?
        && (e.selected.None? || e.projection.None? || !SentFor(frame, e.selected.value, e.projection.value)))
  }

  /** One call drops the pending frame exactly when it settles or abandons it, and never alters it. */
  lemma PendingStep(m: Model, e: Event)
    requires m.pending.Some?
    ensures Apply(m, e).model.pending
            == if Settles(m, m.pending.value, e) || Abandons(m.pending.value, e) then None else m.pending
  {
    match e {
      case ObserveCall(state, character, route) =>
      case BeginCall(slot, mutationId, character, route) =>
      case ResultCall(result, character, route) =>
      case LinkLostCall =>
      case CancelCall =>
      case RetainCall(selected, projection) =>
    }
  }

  /** A frame becomes pending only by being sent. */
  lemma PendingStarts(m: Model, e: Event)
    requires m.pending.None? && Apply(m, e).model.pending.Some?
    ensures e.BeginCall? && Apply(m, e).reply == Sent(Apply(m, e).model.pending.value)
  {
    match e {
      case ObserveCall(state, character, route) =>
      case BeginCall(slot, mutationId, character, route) =>
      case ResultCall(result, character, route) =>
      case LinkLostCall =>
      case CancelCall =>
      case RetainCall(selected, projection) =>
    }
  }

  /** Call `i` sent the frame and no later call before `j` settled or abandoned it. */
  ghost predicate Outstanding(m: Model, run: seq<Event>, i: nat, j: nat, frame: Frame) {
    && i < j <= |run|
    && Apply(After(m, run[..i]), run[i]).reply == Sent(frame)
    && forall k {:trigger run[k]} :: i < k < j ==> !Settles(After(m, run[..k]), frame, run[k]) && !Abandons(frame, run[k])
  }

  /** The retry offered at any moment is the exact frame of one earlier send that nothing has ended. */
  lemma {:induction false} RetryIsExact(m: Model, run: seq<Event>, j: nat) returns (i: nat)
    requires m.pending.None? && j <= |run| && After(m, run[..j]).pending.Some?
    ensures Outstanding(m, run, i, j, After(m, run[..j]).pending.value)
  {
    var before := After(m, run[..j - 1]);
    AfterOne(m, run, j - 1);
    if before.pending.None? {
      PendingStarts(before, run[j - 1]);
      i := j - 1;
    } else {
      PendingStep(before, run[j - 1]);
      i := RetryIsExact(m, run, j - 1);
    }
  }

  /** Conversely a sent frame stays the retry for as long as nothing ends it, link losses included. */
  lemma {:induction false} OutstandingIsRetried(m: Model, run: seq<Event>, i: nat, j: nat, frame: Frame)
    requires Outstanding(m, run, i, j, frame)
    ensures After(m, run[..j]).pending == Some(frame)
  {
    AfterOne(m, run, j - 1);
    if i < j - 1 {
      OutstandingIsRetried(m, run, i, j - 1, frame);
      PendingStep(After(m, run[..j - 1]), run[j - 1]);
    }
  }

  // ----- exactly-once bookkeeping -----

  datatype Tally = Tally(begun: nat, settled: nat, accepted: nat, abandoned: nat)

  function Count(t: Tally, m: Model, e: Event): Tally {
    var step := Apply(m, e);
    if step.reply.Sent? then t.(begun := t.begun + 1)
    else if step.reply.Verdict? && !step.reply.code.ServiceUnavailable? then
      t.(settled := t.settled + 1, accepted := t.accepted + if step.reply.accepted then 1 else 0)
    else if m.pending.Some? && step.model.pending.None? then t.(abandoned := t.abandoned + 1)
    else t
  }

  function TallyOf(m: Model, run: seq<Event>): Tally {
    if run == [] then Tally(0, 0, 0, 0)
    else Count(TallyOf(m, run[..|run| - 1]), After(m, run[..|run| - 1]), run[|run| - 1])
  }

  predicate Balanced(t: Tally, m: Model) {
    t.begun == t.settled + t.abandoned + (if m.pending.Some? then 1 else 0) && t.accepted <= t.settled
  }

  lemma CountBalanced(t: Tally, m: Model, e: Event)
    requires Balanced(t, m)
    ensures Balanced(Count(t, m, e), Apply(m, e).model)
  {
    match e {
      case ObserveCall(state, character, route) =>
      case BeginCall(slot, mutationId, character, route) =>
      case ResultCall(result, character, route) =>
      case LinkLostCall =>
      case CancelCall =>
      case RetainCall(selected, projection) =>
    }
  }

  /**
   * Over every run, the frames sent are those definitively answered, those a route change abandoned
   * and at most the one still pending; so no more uses are accepted than were sent.
   */
  lemma {:induction false} EveryUseIsAccounted(revision: Hash, run: seq<Event>)
    ensures Balanced(TallyOf(New(revision), run), After(New(revision), run))
  {
    if run != [] {
      var before := run[..|run| - 1];
      EveryUseIsAccounted(revision, before);
      CountBalanced(TallyOf(New(revision), before), After(New(revision), before), run[|run| - 1]);
    }
  }

  // ----- the held projection -----

  /** The projection is of this character, this actor generation, this lineage and the compiled content. */
  predicate Belongs(revision: Hash, state: State, character: Id, route: RouteState) {
    && state.characterId == character && state.actorGeneration == route.actorGeneration
    && route.lineage == Some(state.lineage) && state.contentRevision == revision
  }

  /** The call puts this projection in place: a valid observation, or the definitive answer to the pending frame. */
  predicate Brings(m: Model, e: Event, state: State) {
    || (e.ObserveCall? && e.state == state && state.Validate() && Belongs(m.revision, state, e.character, e.route))
    || (e.ResultCall? && e.result.Validate() && m.pending.Some? && e.result.mutationId == m.pending.value.mutationId
        && e.result.code != ServiceUnavailable && e.result.state == Some(state)
        && Belongs(m.revision, state, e.character, e.route))
  }

  predicate BringsAny(m: Model, e: Event) {
    || (e.ObserveCall? && Brings(m, e, e.state))
    || (e.ResultCall? && e.result.state.Some? && Brings(m, e, e.result.state.value))
  }

  /** A lost link, a cancellation, or a route the projection does not belong to. */
  predicate Forgets(m: Model, e: Event, state: State) {
    || e.LinkLostCall? || e.CancelCall?
    || (e.RetainCall?
        && (e.selected.None? || e.projection.None? || !Belongs(m.revision, state, e.selected.value, e.projection.value)))
  }

  /** One call brings a projection, or forgets the held one, or leaves it. */
  lemma AuthorityStep(m: Model, e: Event)
    ensures BringsAny(m, e) <==> exists state :: Brings(m, e, state)
    ensures forall state :: Brings(m, e, state) ==> Apply(m, e).model.authority == Some(state)
    ensures !BringsAny(m, e) ==>
              Apply(m, e).model.authority
              == if m.authority.Some? && Forgets(m, e, m.authority.value) then None else m.authority
  {
    match e {
      case ObserveCall(state, character, route) =>
      case BeginCall(slot, mutationId, character, route) =>
      case ResultCall(result, character, route) =>
      case LinkLostCall =>
      case CancelCall =>
      case RetainCall(selected, projection) =>
    }
  }

  predicate HeldAt(m: Model, run: seq<Event>, j: nat, state: State)
    requires j <= |run|
  {
    After(m, run[..j]).authority == Some(state)
  }

  predicate BringsAt(m: Model, run: seq<Event>, i: nat, state: State)
    requires i < |run|
  {
    Brings(After(m, run[..i]), run[i], state)
  }

  /** The call at `k` neither brings a projection nor forgets this one. */
  predicate LeavesAt(m: Model, run: seq<Event>, k: nat, state: State)
    requires k < |run|
  {
    !BringsAny(After(m, run[..k]), run[k]) && !Forgets(After(m, run[..k]), run[k], state)
  }

  /** Call `i` brought the projection, and no later call before `j` brought another or forgot it. */
  predicate BroughtAt(m: Model, run: seq<Event>, i: nat, j: nat, state: State) {
    i < j <= |run| && BringsAt(m, run, i, state) && forall k :: i < k < j ==> LeavesAt(m, run, k, state)
  }

  /** A projection is held after a call exactly when the call brought it, or left it as it was held before. */
  lemma HeldNext(m: Model, run: seq<Event>, j: nat, state: State)
    requires j < |run|
    ensures HeldAt(m, run, j + 1, state) <==>
              BringsAt(m, run, j, state) || (HeldAt(m, run, j, state) && LeavesAt(m, run, j, state))
  {
    AfterOne(m, run, j);
    AuthorityStep(After(m, run[..j]), run[j]);
  }

  lemma {:induction false} HeldWasBrought(m: Model, run: seq<Event>, j: nat, state: State) returns (i: nat)
    requires m.authority.None? && j <= |run| && HeldAt(m, run, j, state)
    ensures BroughtAt(m, run, i, j, state)
    decreases j
  {
    HeldNext(m, run, j - 1, state);
    if BringsAt(m, run, j - 1, state) {
      i := j - 1;
    } else {
      i := HeldWasBrought(m, run, j - 1, state);
    }
  }

  lemma {:induction false} BroughtIsHeld(m: Model, run: seq<Event>, i: nat, j: nat, state: State)
    requires BroughtAt(m, run, i, j, state)
    ensures HeldAt(m, run, j, state)
    decreases j
  {
    HeldNext(m, run, j - 1, state);
    if i < j - 1 {
      BroughtIsHeld(m, run, i, j - 1, state);
    }
  }

  /**
   * Over every run the held projection is exactly the last one observed or brought by a definitive
   * answer, unless a lost link, a cancellation or a foreign route has forgotten it since.
   */
  lemma HeldExactly(revision: Hash, run: seq<Event>, j: nat, state: State)
    requires j <= |run|
    ensures After(New(revision), run[..j]).authority == Some(state) <==> exists i :: BroughtAt(New(revision), run, i, j, state)
  {
    var m := New(revision);
    if After(m, run[..j]).authority == Some(state) {
      var i := HeldWasBrought(m, run, j, state);
    }
    if i :| BroughtAt(m, run, i, j, state) {
      BroughtIsHeld(m, run, i, j, state);
    }
  }

  /** After an accepted answer the next intent of the same actor is sent and names the answer's inventory version. */
  lemma AcceptedVersionIsNext(m: Model, result: UseResult, slot: Slot, mutationId: Id, character: Id, route: RouteState)
    requires Sound(m) && result.Validate() && result.code == Accepted && mutationId != 0
    requires m.pending.Some? && m.pending.value.mutationId == result.mutationId
    requires Belongs(m.revision, result.state.value, character, route)
    ensures var answered := m.ApplyResult(result, character, route);
            var begun := answered.model.Begin(slot, mutationId, character, route);
            && answered.reply == Verdict(true, Accepted)
            && begun.reply.Sent?
            && begun.reply.frame.payload.expectedInventoryVersion == result.state.value.inventoryVersion
            && begun.reply.frame.payload.slot == slot && begun.reply.frame.mutationId == mutationId
  {
    AuthorityStep(m, ResultCall(result, character, route));
  }

  // ----- answers and refusals -----

  /** Why an answer is refused, if it is. */
  function AnswerRefusal(m: Model, result: UseResult, character: Id, route: RouteState): Option<Error> {
    if !result.Validate() then Some(InvalidAuthority)
    else if m.pending.None? || m.pending.value.mutationId != result.mutationId then Some(UnexpectedResult)
    else if result.state.Some? && !Belongs(m.revision, result.state.value, character, route) then Some(InvalidAuthority)
    else None
  }

  /** Why an intent is refused, if it is, by a model whose stored projection is sound. */
  function IntentRefusal(m: Model, mutationId: Id, character: Id, route: RouteState): Option<Error> {
    if m.pending.Some? then Some(MutationPending)
    else if m.authority.None? then Some(AuthorityUnavailable)
    else if !Belongs(m.revision, m.authority.value, character, route) || mutationId == 0 then Some(InvalidAuthority)
    else None
  }

  /** Only an acceptance brings a projection and consumes an item; any other answer leaves the projection as it is. */
  lemma OnlyAcceptanceConsumes(m: Model, result: UseResult, character: Id, route: RouteState)
    ensures var step := m.ApplyResult(result, character, route);
            && (step.reply == Verdict(true, result.code) ==>
                  result.code == Accepted && result.consumedItem.Some? && result.consumedItem.value != 0 && step.model.authority == result.state)
            && (result.code != Accepted ==> step.model.authority == m.authority)
            && (step.reply.Verdict? && result.code != Accepted ==> result.consumedItem.None? && result.state.None?)
  {
  }

  /** A refused call changes nothing; an answer that is not refused is a verdict on its own code and is recorded. */
  lemma RefusalsAreExact(m: Model, e: Event)
    requires Sound(m)
    ensures e.ResultCall? ==>
              var (refusal, step) := (AnswerRefusal(m, e.result, e.character, e.route), Apply(m, e));
              if refusal.Some? then step == Step(m, Refused(refusal.value))
              else step.reply == Verdict(e.result.code == Accepted, e.result.code) && step.model.lastResult == Some(e.result.code)
    ensures e.BeginCall? ==>
              var (refusal, step) := (IntentRefusal(m, e.mutationId, e.character, e.route), Apply(m, e));
              if refusal.Some? then step == Step(m, Refused(refusal.value)) else step.reply.Sent?
    ensures e.ObserveCall? ==>
              if e.state.Validate() && Belongs(m.revision, e.state, e.character, e.route)
              then Apply(m, e) == Step(m.(authority := Some(e.state)), Done) else Apply(m, e) == Step(m, Refused(InvalidAuthority))
    ensures !e.ResultCall? ==> Apply(m, e).model.lastResult == m.lastResult
  {
    match e {
      case ObserveCall(state, character, route) =>
      case BeginCall(slot, mutationId, character, route) =>
      case ResultCall(result, character, route) =>
      case LinkLostCall =>
      case CancelCall =>
      case RetainCall(selected, projection) =>
    }
  }
}
