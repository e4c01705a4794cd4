/** The three-cell Veil Bargain shrine: review a choice, then confirm it, one decision in flight at a time. */
module Bargain {
  import opened Basics
  import opened RouteProtocol

  /** A bargain identifier; only equality is observed. */
  type Name = nat

  datatype Cell = CellAvailable(bargain: Name) | CellUnavailable

  datatype OfferState = Open | Selected(bargain: Name) | OfferRefused | OfferUnavailable

  datatype Offer = Offer(offerId: Id, state: OfferState, cells: seq<Cell>)

  datatype Projection = Projection(characterId: Id, version: u64, offer: Option<Offer>)

  datatype Code =
    | Available | Accepted | Refused | NoOffer
    | CharacterNotOwned | CharacterNotSelected | CharacterDead | LocationRequired | ContentRejected
    | StateVersionMismatch | OfferResolved | CandidateUnavailable | IdempotencyConflict
    | PayloadHashMismatch | ConfirmationRequired | IssuedAtInvalid | StageDisabled | ServiceUnavailable

  datatype ViewResult = ViewResult(sequence: u32, code: Code, projection: Option<Projection>)

  datatype DecisionResult = DecisionResult(mutationId: Id, code: Code, projection: Option<Projection>) {
    predicate Resolves() { code.Accepted? || code.Refused? }
  }

  datatype Decision = Select(bargain: Name) | Refuse

  datatype Action = CellAction(index: nat) | RefuseAction | ConfirmAction | CancelAction

  datatype Payload = Payload(characterId: Id, offerId: Id, decision: Decision, revision: Revision, confirmed: bool)

  datatype DecisionFrame = DecisionFrame(mutationId: Id, expectedVersion: u64, hashed: Payload, issuedAt: u64, payload: Payload)

  datatype ViewFrame = ViewFrame(sequence: u32, characterId: Id, revision: Revision)

  datatype Reply = Quiet | ViewSent(view: ViewFrame) | DecisionSent(frame: DecisionFrame)

  datatype Step = Step(model: Model, reply: Reply)

  datatype Model = Model(
    requested: Option<Id>,
    nextSequence: u32,
    projection: Option<Projection>,
    error: Option<Code>,
    pending: Option<Decision>,
    inFlight: bool)
  {
    function OpenCells(): Option<seq<Cell>> {
      if projection.Some? && projection.value.offer.Some? && projection.value.offer.value.state.Open?
      then Some(projection.value.offer.value.cells) else None
    }

    predicate ActionAvailable(action: Action) {
      && !inFlight
      && match action
         case CellAction(index) =>
           pending.None? && OpenCells().Some? && index < |OpenCells().value| && OpenCells().value[index].CellAvailable?
         case RefuseAction => pending.None? && OpenCells().Some?
         case ConfirmAction => pending.Some?
         case CancelAction => pending.Some?
    }

    function RequestForSelected(selected: Option<Id>, revision: Revision): Step {
      if selected == requested then Step(this, Quiet)
      else
        var cleared := this.(requested := selected, projection := None, error := None, pending := None, inFlight := false);
        var sequence: u32 := Max(nextSequence, 1);
        if selected.None? || sequence == U32_MAX then Step(cleared, Quiet)
        else Step(cleared.(nextSequence := sequence + 1), ViewSent(ViewFrame(sequence, selected.value, revision)))
    }

    function RequestFailed(): Model { this.(requested := None, error := Some(ServiceUnavailable)) }

    function MutationFailed(): Model { this.(inFlight := false, error := Some(ServiceUnavailable)) }

    function ApplyView(result: ViewResult): Model {
      if result.code.Available? || result.code.NoOffer? then
        this.(inFlight := false, projection := result.projection, error := None)
      else this.(inFlight := false, error := Some(result.code))
    }

    function ApplyDecision(result: DecisionResult): Model {
      if result.Resolves() then this.(inFlight := false, projection := result.projection, pending := None, error := None)
      else this.(inFlight := false, error := Some(result.code),
                 projection := if result.projection.Some? then result.projection else projection)
    }

    /** What an action that is available leaves under review. */
    function Reviewed(action: Action): Option<Decision>
      requires ActionAvailable(action)
    {
      match action
      case CellAction(index) => Some(Select(OpenCells().value[index].bargain))
      case RefuseAction => Some(Refuse)
      case ConfirmAction => pending
      case CancelAction => pending
    }

    function Choose(action: Action): Model {
      if ActionAvailable(action) then this.(pending := Reviewed(action), error := None) else this
    }

    function Cancel(): Model {
      if inFlight then this else this.(pending := None, error := None)
    }

    predicate Confirmable() {
      ActionAvailable(ConfirmAction) && projection.Some? && projection.value.offer.Some?
    }

    function Confirm(mutationId: Id, issuedAt: u64, revision: Revision): Step {
      if !Confirmable() then Step(this, Quiet)
      else
        var payload := Payload(projection.value.characterId, projection.value.offer.value.offerId, pending.value, revision, true);
        Step(this.(inFlight := true),
             DecisionSent(DecisionFrame(mutationId, projection.value.version, payload, issuedAt, payload)))
    }
  }

  const EMPTY := Model(None, 0, None, None, None, false)

  class BargainUiModel {
    var requested: Option<Id>
    var nextSequence: u32
    var projection: Option<Projection>
    var error: Option<Code>
    var pending: Option<Decision>
    var inFlight: bool

    function View(): Model
      reads this
    {
      Model(requested, nextSequence, projection, error, pending, inFlight)
    }

    constructor ()
      ensures View() == EMPTY
    {
      requested, nextSequence, projection, error, pending, inFlight := None, 0, None, None, None, false;
    }

    method RequestForSelected(selected: Option<Id>, revision: Revision) returns (reply: Reply)
      modifies this
      ensures Step(View(), reply) == old(View()).RequestForSelected(selected, revision)
    {
      if selected == requested { return Quiet; }
      requested := selected;
      projection, error, pending, inFlight := None, None, None, false;
      if selected.None? { return Quiet; }
      var sequence: u32 := Max(nextSequence, 1);
      if sequence == U32_MAX { return Quiet; }
      nextSequence := sequence + 1;
      return ViewSent(ViewFrame(sequence, selected.value, revision));
    }

    method RequestFailed()
      modifies this`requested, this`error
      ensures View() == old(View()).RequestFailed()
    {
      requested := None;
      error := Some(ServiceUnavailable);
    }

    method MutationFailed()
      modifies this`inFlight, this`error
      ensures View() == old(View()).MutationFailed()
    {
      inFlight := false;
      error := Some(ServiceUnavailable);
    }

    method ApplyView(result: ViewResult)
      modifies this`inFlight, this`projection, this`error
      ensures View() == old(View()).ApplyView(result)
    {
      inFlight := false;
      if result.code.Available? || result.code.NoOffer? {
        projection := result.projection;
        error := None;
      } else {
        error := Some(result.code);
      }
    }

    method ApplyDecision(result: DecisionResult)
      modifies this`inFlight, this`projection, this`pending, this`error
      ensures View() == old(View()).ApplyDecision(result)
    {
      inFlight := false;
      if result.Resolves() {
        projection := result.projection;
        pending := None;
        error := None;
      } else {
        if result.projection.Some? {
          projection := result.projection;
        }
        error := Some(result.code);
      }
    }

    method Choose(action: Action)
      modifies this`pending, this`error
      ensures View() == old(View()).Choose(action)
    {
      if !View().ActionAvailable(action) { return; }
      match action {
        case CellAction(index) => pending := Some(Select(View().OpenCells().value[index].bargain));
        case RefuseAction => pending := Some(Refuse);
        case ConfirmAction =>
        case CancelAction =>
      }
      error := None;
    }

    method Cancel()
      modifies this`pending, this`error
      ensures View() == old(View()).Cancel()
    {
      if !inFlight {
        pending := None;
        error := None;
      }
    }

    method Confirm(mutationId: Id, issuedAt: u64, revision: Revision) returns (reply: Reply)
      modifies this`inFlight
      ensures Step(View(), reply) == old(View()).Confirm(mutationId, issuedAt, revision)
    {
      if !View().ActionAvailable(ConfirmAction) { return Quiet; }
      if projection.None? || projection.value.offer.None? { return Quiet; }
      var payload := Payload(projection.value.characterId, projection.value.offer.value.offerId, pending.value, revision, true);
      inFlight := true;
      return DecisionSent(DecisionFrame(mutationId, projection.value.version, payload, issuedAt, payload));
    }
  }
}
