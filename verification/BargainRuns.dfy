/** Two-step confirmation over every run: no decision frame without a reviewed choice behind it. */
module BargainRuns {
  import opened Basics
  import opened RouteProtocol
  import opened Bargain

  datatype Event =
    | SelectedCall(selected: Option<Id>, revision: Revision)
    | RequestFailedCall
    | MutationFailedCall
    | ViewCall(view: ViewResult)
    | DecisionCall(decision: DecisionResult)
    | ChooseCall(action: Action)
    | CancelCall
    | ConfirmCall(mutationId: Id, issuedAt: u64, compiled: Revision)
    | ResetCall

  function Apply(m: Model, e: Event): Step {
    match e
    case SelectedCall(selected, revision) => m.RequestForSelected(selected, revision)
    case RequestFailedCall => Step(m.RequestFailed(), Quiet)
    case MutationFailedCall => Step(m.MutationFailed(), Quiet)
    case ViewCall(view) => Step(m.ApplyView(view), Quiet)
    case DecisionCall(decision) => Step(m.ApplyDecision(decision), Quiet)
    case ChooseCall(action) => Step(m.Choose(action), Quiet)
    case CancelCall => Step(m.Cancel(), Quiet)
    case ConfirmCall(mutationId, issuedAt, compiled) => m.Confirm(mutationId, issuedAt, compiled)
    case ResetCall => Step(EMPTY, Quiet)
  }

  /** The model after the first `i` calls of a run; past the end it stays at the last one. */
  function At(run: seq<Event>, i: nat): Model {
    if i == 0 then EMPTY
    else if i <= |run| then Apply(At(run, i - 1), run[i - 1]).model
    else At(run, i - 1)
  }

  // ----- the three stages -----

  datatype Stage = Idle | Reviewing(decision: Decision) | InFlight(decision: Decision)

  /** Nothing is in flight without a decision under review. */
  predicate Coherent(m: Model) {
    m.inFlight ==> m.pending.Some?
  }

  function StageOf(m: Model): Stage {
    if m.pending.None? then Idle else if m.inFlight then InFlight(m.pending.value) else Reviewing(m.pending.value)
  }

  /** The decision an enabled choice puts under review. */
  function Chosen(m: Model, e: Event): Option<Decision> {
    if e.ChooseCall? && (e.action.CellAction? || e.action.RefuseAction?) && m.ActionAvailable(e.action)
    then m.Reviewed(e.action) else None
  }

  /** A decision was accepted or refused by the server, the character changed, or everything was reset. */
  predicate Clears(m: Model, e: Event) {
    || (e.DecisionCall? && e.decision.Resolves())
    || (e.SelectedCall? && e.selected != m.requested)
    || e.ResetCall?
  }

  /** A view, an unresolved decision result or a failed send. */
  predicate Lands(e: Event) {
    e.ViewCall? || e.DecisionCall? || e.MutationFailedCall?
  }

  /** The next stage, from the current one and what happens. */
  function Move(stage: Stage, chosen: Option<Decision>, clears: bool, lands: bool, cancels: bool, confirms: bool): Stage {
    if clears then Idle
    else match stage
         case Idle => if chosen.Some? then Reviewing(chosen.value) else Idle
         case Reviewing(d) => if cancels then Idle else if confirms then InFlight(d) else stage
         case InFlight(d) => if lands then Reviewing(d) else stage
  }

  /** Each call is exactly one move of the three-stage machine, and only confirming a review sends its decision. */
  lemma StageStep(m: Model, e: Event)
    requires Coherent(m)
    ensures Coherent(Apply(m, e).model)
    ensures StageOf(Apply(m, e).model)
            == Move(StageOf(m), Chosen(m, e), Clears(m, e), Lands(e), e.CancelCall?, e.ConfirmCall? && m.Confirmable())
    ensures Apply(m, e).reply.DecisionSent? <==> e.ConfirmCall? && m.Confirmable()
    ensures Apply(m, e).reply.DecisionSent? ==>
              var frame := Apply(m, e).reply.frame;
              && StageOf(m) == Reviewing(frame.payload.decision)
              && frame.payload.confirmed && frame.hashed == frame.payload
              && frame.payload.offerId == m.projection.value.offer.value.offerId
              && frame.payload.characterId == m.projection.value.characterId
              && frame.expectedVersion == m.projection.value.version
  {
    match e {
      case SelectedCall(selected, revision) =>
      case RequestFailedCall =>
      case MutationFailedCall =>
      case ViewCall(view) =>
      case DecisionCall(decision) =>
      case ChooseCall(action) => ChooseStep(m, action);
      case CancelCall =>
      case ConfirmCall(mutationId, issuedAt, compiled) =>
      case ResetCall =>
    }
  }

  lemma ChooseStep(m: Model, action: Action)
    requires Coherent(m)
    ensures Coherent(m.Choose(action))
    ensures StageOf(m.Choose(action))
            == if StageOf(m).Idle? && Chosen(m, ChooseCall(action)).Some? then Reviewing(Chosen(m, ChooseCall(action)).value)
               else StageOf(m)
  {
  }

  /** Only an enabled press of Refuse puts a refusal under review; cancelling never does. */
  lemma RefusalIsExplicit(m: Model, e: Event)
    requires Coherent(m) && StageOf(m) != Reviewing(Refuse) && StageOf(m) != InFlight(Refuse)
    ensures StageOf(Apply(m, e).model) == Reviewing(Refuse) <==>
              e == ChooseCall(RefuseAction) && StageOf(m).Idle? && m.OpenCells().Some?
    ensures StageOf(Apply(m, e).model) != InFlight(Refuse)
  {
    StageStep(m, e);
  }

  lemma {:induction false} RunCoherent(run: seq<Event>, i: nat)
    requires i <= |run|
    ensures Coherent(At(run, i))
  {
    if i > 0 {
      RunCoherent(run, i - 1);
      StageStep(At(run, i - 1), run[i - 1]);
    }
  }

  // ----- every frame was chosen -----

  /** The call drops whatever is under review. */
  predicate Drops(m: Model, e: Event) {
    Clears(m, e) || (e.CancelCall? && !m.inFlight)
  }

  /** Call `i` was an enabled choice of `d`, and no call since, up to `j`, dropped it. */
  predicate ChosenAt(run: seq<Event>, i: nat, j: nat, d: Decision) {
    && i < j <= |run|
    && Chosen(At(run, i), run[i]) == Some(d)
    && forall k {:trigger run[k]} :: i < k < j ==> !Drops(At(run, k), run[k])
  }

  /** What is under review after a call was just chosen, or was under review before and not dropped. */
  lemma ReviewStep(m: Model, e: Event)
    requires Coherent(m) && Apply(m, e).model.pending.Some?
    ensures if m.pending.None? then Chosen(m, e) == Apply(m, e).model.pending
            else Apply(m, e).model.pending == m.pending && !Drops(m, e)
  {
    StageStep(m, e);
  }

  lemma {:induction false} ReviewWasChosen(run: seq<Event>, j: nat) returns (i: nat)
    requires j <= |run| && At(run, j).pending.Some?
    ensures ChosenAt(run, i, j, At(run, j).pending.value)
  {
    RunCoherent(run, j - 1);
    ReviewStep(At(run, j - 1), run[j - 1]);
    if At(run, j - 1).pending.None? {
      i := j - 1;
    } else {
      i := ReviewWasChosen(run, j - 1);
    }
  }

  /**
   * Every decision frame of every run carries exactly the decision of an earlier enabled choice, with
   * no effective cancel, character change, reset or accepted decision in between.
   */
  lemma EveryFrameWasChosen(run: seq<Event>, j: nat) returns (i: nat)
    requires j < |run| && Apply(At(run, j), run[j]).reply.DecisionSent?
    ensures ChosenAt(run, i, j, Apply(At(run, j), run[j]).reply.frame.payload.decision)
  {
    RunCoherent(run, j);
    StageStep(At(run, j), run[j]);
    i := ReviewWasChosen(run, j);
  }

  // ----- one decision in flight -----

  predicate Flying(run: seq<Event>, i: nat) {
    StageOf(At(run, i)).InFlight?
  }

  lemma FlightStep(run: seq<Event>, i: nat)
    requires i < |run|
    ensures Apply(At(run, i), run[i]).reply.DecisionSent? ==> !Flying(run, i) && Flying(run, i + 1)
    ensures Flying(run, i) && !Flying(run, i + 1) ==> Lands(run[i]) || Clears(At(run, i), run[i])
  {
    RunCoherent(run, i);
    StageStep(At(run, i), run[i]);
  }

  /** Between two decision frames a result, a view, a failed send, a reselection or a reset intervenes. */
  lemma FramesAreSeparated(run: seq<Event>, i: nat, j: nat) returns (k: nat)
    requires i < j < |run|
    requires Apply(At(run, i), run[i]).reply.DecisionSent? && Apply(At(run, j), run[j]).reply.DecisionSent?
    ensures i < k < j && (Lands(run[k]) || Clears(At(run, k), run[k]))
  {
    FlightStep(run, i);
    FlightStep(run, j);
    k := Rises((n: nat) => !Flying(run, n), i + 1, j);
    FlightStep(run, k);
  }

  // ----- which offer a selection belongs to -----

  /** The call may put another projection in place. */
  predicate Replaces(m: Model, e: Event) {
    || (e.ViewCall? && (e.view.code.Available? || e.view.code.NoOffer?))
    || (e.DecisionCall? && (e.decision.Resolves() || e.decision.projection.Some?))
    || (e.SelectedCall? && e.selected != m.requested)
    || e.ResetCall?
  }

  lemma ProjectionStep(m: Model, e: Event)
    requires !Replaces(m, e)
    ensures Apply(m, e).model.projection == m.projection
  {
  }

  lemma {:induction false} ProjectionHolds(run: seq<Event>, i: nat, j: nat)
    requires i <= j <= |run|
    requires forall k {:trigger run[k]} :: i <= k < j ==> !Replaces(At(run, k), run[k])
    ensures At(run, j).projection == At(run, i).projection
  {
    if i < j {
      ProjectionHolds(run, i, j - 1);
      ProjectionStep(At(run, j - 1), run[j - 1]);
    }
  }

  /** If no projection arrived since the choice, the sent selection is an available cell of the very offer it names. */
  lemma UndisturbedSelectionIsOffered(run: seq<Event>, i: nat, j: nat)
    requires j < |run| && Apply(At(run, j), run[j]).reply.DecisionSent?
    requires ChosenAt(run, i, j, Apply(At(run, j), run[j]).reply.frame.payload.decision)
    requires forall k {:trigger run[k]} :: i <= k < j ==> !Replaces(At(run, k), run[k])
    ensures var payload := Apply(At(run, j), run[j]).reply.frame.payload;
            && At(run, i).OpenCells().Some?
            && payload.offerId == At(run, i).projection.value.offer.value.offerId
            && (payload.decision.Select? ==> CellAvailable(payload.decision.bargain) in At(run, i).OpenCells().value)
  {
    ProjectionHolds(run, i, j);
    RunCoherent(run, j);
    StageStep(At(run, j), run[j]);
  }

  /** The decision can be made of the offer this projection shows: it is open, and a selected cell is available. */
  predicate OfferedBy(p: Option<Projection>, d: Decision) {
    && p.Some? && p.value.offer.Some? && p.value.offer.value.state.Open?
    && (d.Select? ==> CellAvailable(d.bargain) in p.value.offer.value.cells)
  }

  /** The projection a server result brings. */
  function Brought(e: Event): Option<Projection> {
    match e
    case ViewCall(view) => view.projection
    case DecisionCall(decision) => decision.projection
    case _ => None
  }

  lemma ReplacementStep(m: Model, e: Event)
    requires Replaces(m, e)
    ensures Apply(m, e).model.projection == Brought(e)
  {
  }

  /** The last call from `i` on and before `j` that replaced the projection, if any. */
  function LastReplacement(run: seq<Event>, i: nat, j: nat): (last: Option<nat>)
    requires i <= j <= |run|
    ensures last.Some? ==> i <= last.value < j && Replaces(At(run, last.value), run[last.value])
    ensures forall k {:trigger run[k]} ::
              (if last.Some? then last.value < k < j else i <= k < j) ==> !Replaces(At(run, k), run[k])
  {
    if i == j then None
    else if Replaces(At(run, j - 1), run[j - 1]) then Some(j - 1)
    else LastReplacement(run, i, j - 1)
  }

  lemma ChoiceReplacesNothing(m: Model, e: Event)
    requires Chosen(m, e).Some?
    ensures !Replaces(m, e) && OfferedBy(m.projection, Chosen(m, e).value)
  {
  }

  /** The projection shown is the one the last replacing result brought, or else the one at the start. */
  lemma ProjectionSince(run: seq<Event>, i: nat, j: nat)
    requires i <= j <= |run|
    ensures var last := LastReplacement(run, i, j);
            At(run, j).projection == if last.None? then At(run, i).projection else Brought(run[last.value])
  {
    var last := LastReplacement(run, i, j);
    if last.None? {
      ProjectionHolds(run, i, j);
    } else {
      ReplacementAt(run, last.value);
      ProjectionHolds(run, last.value + 1, j);
    }
  }

  lemma LastReplacementDecides(run: seq<Event>, i: nat, j: nat, d: Decision)
    requires ChosenAt(run, i, j, d)
    ensures var last := LastReplacement(run, i, j);
            OfferedBy(At(run, j).projection, d) <==> last.None? || OfferedBy(Brought(run[last.value]), d)
  {
    ProjectionSince(run, i, j);
    ChoiceReplacesNothing(At(run, i), run[i]);
  }

  lemma ReplacementAt(run: seq<Event>, k: nat)
    requires k < |run| && Replaces(At(run, k), run[k])
    ensures At(run, k + 1).projection == Brought(run[k])
  {
    ReplacementStep(At(run, k), run[k]);
  }

  /**
   * The decision a frame carries can be made of the very offer the frame names if and only if the last
   * result since the choice that replaced the projection, if there was one, still offers it.
   */
  lemma SentDecisionIsOfferedExactly(run: seq<Event>, i: nat, j: nat)
    requires j < |run| && Apply(At(run, j), run[j]).reply.DecisionSent?
    requires ChosenAt(run, i, j, Apply(At(run, j), run[j]).reply.frame.payload.decision)
    ensures var payload := Apply(At(run, j), run[j]).reply.frame.payload;
            var last := LastReplacement(run, i, j);
            && At(run, j).projection.Some? && At(run, j).projection.value.offer.Some?
            && payload.offerId == At(run, j).projection.value.offer.value.offerId
            && (OfferedBy(At(run, j).projection, payload.decision)
                <==> last.None? || OfferedBy(Brought(run[last.value]), payload.decision))
  {
    RunCoherent(run, j);
    StageStep(At(run, j), run[j]);
    LastReplacementDecides(run, i, j, Apply(At(run, j), run[j]).reply.frame.payload.decision);
  }

  /**
   * A view that arrives during review replaces the offer and keeps the choice, so confirming sends the
   * old decision under the new offer; it is one the new offer does not make exactly when the view's
   * offer is not open or its cells lack the selection.
   */
  lemma LaterViewKeepsTheSelection(m: Model, view: ViewResult, mutationId: Id, issuedAt: u64, revision: Revision)
    requires Coherent(m) && m.pending.Some? && view.code.Available?
    requires view.projection.Some? && view.projection.value.offer.Some?
    ensures var viewed := m.ApplyView(view);
            var reply := viewed.Confirm(mutationId, issuedAt, revision).reply;
            var offer := view.projection.value.offer.value;
            && reply.DecisionSent?
            && reply.frame.payload.decision == m.pending.value
            && reply.frame.payload.offerId == offer.offerId
            && viewed.projection.value.offer.value == offer
            && (!OfferedBy(viewed.projection, reply.frame.payload.decision)
                <==> !offer.state.Open? || (m.pending.value.Select? && CellAvailable(m.pending.value.bargain) !in offer.cells))
  {
  }

  /** Selecting a character, viewing an offer, choosing a cell, viewing again and confirming. */
  function ReviewedRun(character: Id, revision: Revision, first: ViewResult, index: nat, second: ViewResult,
                       mutationId: Id, issuedAt: u64): seq<Event>
  {
    [SelectedCall(Some(character), revision), ViewCall(first), ChooseCall(CellAction(index)), ViewCall(second),
     ConfirmCall(mutationId, issuedAt, revision)]
  }

  lemma ReviewedRunSteps(character: Id, revision: Revision, first: ViewResult, index: nat, second: ViewResult,
                         mutationId: Id, issuedAt: u64)
    requires first.code.Available? && first.projection.Some?
    ensures var run := ReviewedRun(character, revision, first, index, second, mutationId, issuedAt);
            && At(run, 2).projection == first.projection && At(run, 2).pending.None? && !At(run, 2).inFlight
            && At(run, 4) == At(run, 2).Choose(CellAction(index)).ApplyView(second)
  {
    var run := ReviewedRun(character, revision, first, index, second, mutationId, issuedAt);
    assert At(run, 1) == Apply(EMPTY, run[0]).model;
    assert At(run, 2) == Apply(At(run, 1), run[1]).model;
    assert At(run, 3) == Apply(At(run, 2), run[2]).model;
    assert At(run, 4) == Apply(At(run, 3), run[3]).model;
  }

  /**
   * From a new shrine: whenever the first view's offer is open with an available cell and the second
   * view's offer lacks that bargain, the confirmed frame selects it under the second offer.
   */
  lemma StaleSelectionIsSent(character: Id, revision: Revision, first: ViewResult, index: nat, second: ViewResult,
                             mutationId: Id, issuedAt: u64)
    requires first.code.Available? && first.projection.Some? && first.projection.value.offer.Some?
    requires first.projection.value.offer.value.state.Open? && index < |first.projection.value.offer.value.cells|
    requires first.projection.value.offer.value.cells[index].CellAvailable?
    requires second.code.Available? && second.projection.Some? && second.projection.value.offer.Some?
    requires first.projection.value.offer.value.cells[index] !in second.projection.value.offer.value.cells
    ensures var run := ReviewedRun(character, revision, first, index, second, mutationId, issuedAt);
            var reply := Apply(At(run, 4), run[4]).reply;
            && reply.DecisionSent?
            && reply.frame.payload.decision == Select(first.projection.value.offer.value.cells[index].bargain)
            && reply.frame.payload.offerId == second.projection.value.offer.value.offerId
            && At(run, 4).projection == second.projection
            && !OfferedBy(At(run, 4).projection, reply.frame.payload.decision)
  {
    ReviewedRunSteps(character, revision, first, index, second, mutationId, issuedAt);
    var run := ReviewedRun(character, revision, first, index, second, mutationId, issuedAt);
    var chosen := At(run, 2).Choose(CellAction(index));
    assert chosen.pending == Some(Select(first.projection.value.offer.value.cells[index].bargain));
    LaterViewKeepsTheSelection(chosen, second, mutationId, issuedAt, revision);
  }

  // ----- views and errors -----

  /**
   * A view is asked for exactly when another character is selected and a sequence is left, under a
   * fresh sequence; a failed request makes the same character count as another one again.
   */
  lemma ViewExactly(m: Model, e: Event)
    ensures Apply(m, e).reply.ViewSent? <==>
              e.SelectedCall? && e.selected.Some? && e.selected != m.requested && m.nextSequence < U32_MAX
    ensures Apply(m, e).reply.ViewSent? ==>
              var view := Apply(m, e).reply.view;
              && view.characterId == e.selected.value && view.revision == e.revision
              && view.sequence == (if m.nextSequence == 0 then 1 else m.nextSequence)
              && Apply(m, e).model.nextSequence == view.sequence + 1
    ensures !Apply(m, e).reply.ViewSent? && !e.ResetCall? ==> Apply(m, e).model.nextSequence == m.nextSequence
    ensures Apply(m, e).model.requested
            == if e.SelectedCall? then e.selected else if e.RequestFailedCall? || e.ResetCall? then None else m.requested
  {
  }

  /** The sequence next offered has passed every sequence used, while nothing is reset. */
  lemma {:induction false} ViewsAreFresh(run: seq<Event>, i: nat, j: nat)
    requires i < j < |run| && Apply(At(run, i), run[i]).reply.ViewSent?
    requires forall k {:trigger run[k]} :: i < k < j ==> !run[k].ResetCall?
    ensures Apply(At(run, j), run[j]).reply.ViewSent? ==>
              Apply(At(run, i), run[i]).reply.view.sequence < Apply(At(run, j), run[j]).reply.view.sequence
  {
    ViewExactly(At(run, i), run[i]);
    SequenceHolds(run, i + 1, j);
    ViewExactly(At(run, j), run[j]);
  }

  lemma {:induction false} SequenceHolds(run: seq<Event>, i: nat, j: nat)
    requires i <= j <= |run|
    requires forall k {:trigger run[k]} :: i <= k < j ==> !run[k].ResetCall?
    ensures At(run, i).nextSequence <= At(run, j).nextSequence
  {
    if i < j {
      SequenceHolds(run, i, j - 1);
      ViewExactly(At(run, j - 1), run[j - 1]);
    }
  }

  /** The error shown is the last one reported: cleared by a projection, a resolution, a choice, a cancel, another character or a reset. */
  lemma ErrorExactly(m: Model, e: Event)
    ensures Apply(m, e).model.error ==
              match e
              case SelectedCall(selected, _) => if selected == m.requested then m.error else None
              case RequestFailedCall => Some(ServiceUnavailable)
              case MutationFailedCall => Some(ServiceUnavailable)
              case ViewCall(view) => if view.code == Available || view.code == NoOffer then None else Some(view.code)
              case DecisionCall(decision) => if decision.code == Accepted || decision.code == Refused then None else Some(decision.code)
              case ChooseCall(action) => if m.ActionAvailable(action) then None else m.error
              case CancelCall => if m.inFlight then m.error else None
              case ConfirmCall(_, _, _) => m.error
              case ResetCall => None
  {
  }

  /** Which actions are available: choosing on an open offer with nothing under review, confirming and cancelling on a review, none in flight. */
  lemma AvailabilityExactly(m: Model, action: Action)
    requires Coherent(m)
    ensures var offer := if m.projection.Some? then m.projection.value.offer else None;
            var open := offer.Some? && offer.value.state == Open;
            m.ActionAvailable(action) <==>
              match action
              case CellAction(index) => StageOf(m) == Idle && open && index < |offer.value.cells| && offer.value.cells[index].CellAvailable?
              case RefuseAction => StageOf(m) == Idle && open
              case ConfirmAction => StageOf(m).Reviewing?
              case CancelAction => StageOf(m).Reviewing?
  {
  }

  /** A sent frame carries the fresh mutation identity, issue time and compiled revision of its confirmation. */
  lemma FrameCarriesItsConfirmation(m: Model, e: Event)
    requires Apply(m, e).reply.DecisionSent?
    ensures var frame := Apply(m, e).reply.frame;
            && e.ConfirmCall? && frame.mutationId == e.mutationId && frame.issuedAt == e.issuedAt
            && frame.payload.revision == e.compiled && frame.payload.confirmed
  {
  }
}
